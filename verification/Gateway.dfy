/** The provider gateway (internal/app/gateway.go): failure streaks, a
    circuit breaker with exponential backoff in 64-bit durations, failover in
    the configured order, and the two health transitions worth an alert.
    Instants and durations are nanoseconds. */
module Gateway {
  import opened Wrappers
  import opened Numerals

  const SHIFT_LIMIT: nat := 30

  /** A threshold of zero or less turns the breaker off. */
  datatype Config = Config(order: seq<string>, threshold: int, base: int, max: int, grace: int, staleness: int)

  /** What LoadConfig lets through. */
  predicate Accepted(cfg: Config) {
    IsInt64(cfg.base) && IsInt64(cfg.max) && (cfg.threshold > 0 ==> cfg.base > 0 && cfg.max > 0)
  }

  // ---------- Backoff ----------

  function ShiftLeft(n: int, k: nat): int {
    Wrap64(n * Pow(2, k))
  }

  function Shift(cfg: Config, streak: int): nat
    requires streak >= cfg.threshold
  {
    if streak - cfg.threshold > SHIFT_LIMIT then SHIFT_LIMIT else streak - cfg.threshold
  }

  function Delay(cfg: Config, streak: int): int
    requires streak >= cfg.threshold
  {
    var delay := ShiftLeft(cfg.base, Shift(cfg, streak));
    if delay <= 0 || delay > cfg.max then cfg.max else delay
  }

  lemma {:induction false} PowMonotone(j: nat, k: nat)
    requires j <= k
    ensures Pow(2, j) <= Pow(2, k)
  {
    if j < k {
      PowMonotone(j, k - 1);
    }
  }

  lemma PowersOfTwo()
    ensures Pow(2, 4) == 16 && Pow(2, 5) == 32
    ensures Pow(2, 28) == 0x1000_0000 && Pow(2, 29) == 0x2000_0000 && Pow(2, 30) == 0x4000_0000
  {
    assert Pow(2, 10) == 0x400;
    assert Pow(2, 15) == 0x8000;
    assert Pow(2, 20) == 0x10_0000;
    assert Pow(2, 25) == 0x200_0000;
  }

  lemma MulBound(a: nat, b: nat, c: nat, d: nat)
    requires a <= c && b <= d
    ensures a * b <= c * d
  {
    assert a * b <= c * b <= c * d;
  }

  /** Wrapping or not, an open circuit stays open for a positive time no
      longer than the maximum. */
  lemma DelayInRange(cfg: Config, streak: int)
    requires Accepted(cfg) && 0 < cfg.threshold <= streak
    ensures 0 < Delay(cfg, streak) <= cfg.max
  {
  }

  lemma SmallProduct(base: nat, p: nat)
    requires base < 0x2_0000_0000 && p <= 0x4000_0000
    ensures Wrap64(base * p) == base * p <= MAX_INT64
  {
    MulBound(base, p, 0x1_ffff_ffff, 0x4000_0000);
    WrapIsIdentity(base * p);
  }

  /** A base under 2^33 ns never wraps at the largest shift. */
  lemma SmallBaseDoesNotWrap(base: int, k: nat)
    requires 0 < base < 0x2_0000_0000 && k <= SHIFT_LIMIT
    ensures ShiftLeft(base, k) == base * Pow(2, k) <= MAX_INT64
  {
    PowMonotone(k, SHIFT_LIMIT);
    PowersOfTwo();
    SmallProduct(base, Pow(2, k));
  }

  /** For such a base the delay is capped doubling, exactly. */
  lemma DelayIsCappedDoubling(cfg: Config, streak: int)
    requires Accepted(cfg) && 0 < cfg.threshold <= streak && cfg.base < 0x2_0000_0000
    ensures Delay(cfg, streak) == Min(cfg.base * Pow(2, Shift(cfg, streak)), cfg.max)
  {
    SmallBaseDoesNotWrap(cfg.base, Shift(cfg, streak));
    MulBound(1, 1, cfg.base, Pow(2, Shift(cfg, streak)));
  }

  lemma DelayGrowsWithStreak(cfg: Config, streak: int, longer: int)
    requires Accepted(cfg) && 0 < cfg.threshold <= streak <= longer && cfg.base < 0x2_0000_0000
    ensures Delay(cfg, streak) <= Delay(cfg, longer)
  {
    DelayIsCappedDoubling(cfg, streak);
    DelayIsCappedDoubling(cfg, longer);
    PowMonotone(Shift(cfg, streak), Shift(cfg, longer));
    MulBound(cfg.base, Pow(2, Shift(cfg, streak)), cfg.base, Pow(2, Shift(cfg, longer)));
  }

  /** For any base: one streak's delay is capped doubling unless the shifted
      value wraps to something positive below the maximum. */
  lemma DelayExactness(cfg: Config, streak: int)
    requires Accepted(cfg) && 0 < cfg.threshold <= streak
    ensures var product := cfg.base * Pow(2, Shift(cfg, streak));
            Delay(cfg, streak) == Min(product, cfg.max) <==>
              product <= MAX_INT64 || !(0 < Wrap64(product) < cfg.max)
  {
    var product := cfg.base * Pow(2, Shift(cfg, streak));
    MulBound(1, 1, cfg.base, Pow(2, Shift(cfg, streak)));
    if product <= MAX_INT64 {
      WrapIsIdentity(product);
    }
  }

  /** 2^34 + 1 ns is such a base: thirty-one failures in a row after the
      threshold shorten the delay to about a second, below even the base. */
  lemma LargeBaseWraps(cfg: Config)
    requires cfg.threshold > 0 && cfg.base == 0x4_0000_0001 && cfg.max == MAX_INT64
    ensures Delay(cfg, cfg.threshold + 28) == 0x4_0000_0001 * 0x1000_0000
    ensures Delay(cfg, cfg.threshold + 29) == cfg.max
    ensures Delay(cfg, cfg.threshold + 30) == 0x4000_0000 < cfg.base
  {
    PowersOfTwo();
  }

  const DEFAULT_BASE: int := 30_000_000_000
  const DEFAULT_MAX: int := 900_000_000_000

  lemma DefaultDoesNotWrap(k: nat)
    requires k <= 28
    ensures ShiftLeft(DEFAULT_BASE, k) == DEFAULT_BASE * Pow(2, k)
  {
    PowersOfTwo();
    PowMonotone(k, 28);
    MulBound(DEFAULT_BASE, Pow(2, k), DEFAULT_BASE, 0x1000_0000);
    WrapIsIdentity(DEFAULT_BASE * Pow(2, k));
  }

  /** The default 30 s is not under 2^33 ns, and its shifts by 29 and 30 do
      wrap; the delay is capped doubling all the same, for every streak. */
  lemma DefaultDelay(cfg: Config, k: nat)
    requires cfg.threshold > 0 && cfg.base == DEFAULT_BASE && cfg.max == DEFAULT_MAX
    ensures Delay(cfg, cfg.threshold + k) == Min(DEFAULT_BASE * Pow(2, k), DEFAULT_MAX)
  {
    PowersOfTwo();
    if k <= 28 {
      DefaultDoesNotWrap(k);
      MulBound(1, 1, DEFAULT_BASE, Pow(2, k));
    } else {
      PowMonotone(5, k);
      MulBound(DEFAULT_BASE, 32, DEFAULT_BASE, Pow(2, k));
    }
  }

  // ---------- The state under the mutex ----------

  /** The transitions reported to the health observer, in the order they were
      decided. */
  datatype Report = Down(provider: string, streak: int) | Recovered(provider: string)

  datatype State = State(streaks: map<string, int>, openUntil: map<string, int>,
                         lastSuccess: map<string, int>, reports: seq<Report>)

  function Streak(st: State, p: string): int {
    if p in st.streaks then st.streaks[p] else 0
  }

  predicate Open(cfg: Config, st: State, p: string, now: int) {
    cfg.threshold > 0 && p in st.openUntil && now < st.openUntil[p]
  }

  function AfterSuccess(st: State, p: string, now: int): State {
    State(st.streaks[p := 0], st.openUntil - {p}, st.lastSuccess[p := now],
          if p in st.openUntil then st.reports + [Recovered(p)] else st.reports)
  }

  function AfterFailure(cfg: Config, st: State, p: string, now: int): State {
    var streak := Streak(st, p) + 1;
    if cfg.threshold <= 0 then st
    else if streak < cfg.threshold then st.(streaks := st.streaks[p := streak])
    else State(st.streaks[p := streak], st.openUntil[p := now + Delay(cfg, streak)], st.lastSuccess,
               if p in st.openUntil then st.reports else st.reports + [Down(p, streak)])
  }

  /** One call to a provider: when its circuit was looked at, whether it would
      succeed, and when its outcome was recorded. */
  datatype Call = Call(checkedAt: int, ok: bool, doneAt: int)

  datatype Served = Served(state: State, winner: Option<nat>, called: set<nat>)

  /** Trying the providers from position i on. */
  function ExecuteFrom(cfg: Config, st: State, providers: seq<string>, calls: seq<Call>, i: nat): Served
    requires |calls| == |providers| && i <= |providers|
    decreases |providers| - i
  {
    if i == |providers| then Served(st, None, {})
    else if Open(cfg, st, providers[i], calls[i].checkedAt) then ExecuteFrom(cfg, st, providers, calls, i + 1)
    else if calls[i].ok then Served(AfterSuccess(st, providers[i], calls[i].doneAt), Some(i), {i})
    else
      var rest := ExecuteFrom(cfg, AfterFailure(cfg, st, providers[i], calls[i].doneAt), providers, calls, i + 1);
      rest.(called := rest.called + {i})
  }

  function OthersThan(preferred: Option<string>, order: seq<string>): seq<string> {
    if order == [] then []
    else (if Some(order[0]) == preferred then [] else [order[0]]) + OthersThan(preferred, order[1..])
  }

  /** The preferred provider, when it is known, then the configured order
      without it. */
  function Preference(cfg: Config, known: set<string>, preferred: Option<string>): seq<string> {
    (if preferred.Some? && preferred.value in known then [preferred.value] else []) + OthersThan(preferred, cfg.order)
  }

  datatype HealthStatus = Unknown | Unhealthy | Healthy

  // ---------- The gateway ----------

  class ProviderGateway {
    const cfg: Config
    const known: set<string>
    const startedAt: int
    var failureStreak: map<string, int>
    var circuitOpenUntil: map<string, int>
    var lastSuccess: map<string, int>
    var reports: seq<Report>

    constructor (cfg: Config, known: set<string>, now: int)
      ensures this.cfg == cfg && this.known == known && startedAt == now
      ensures Snapshot() == State(map[], map[], map[], [])
    {
      this.cfg := cfg;
      this.known := known;
      startedAt := now;
      failureStreak, circuitOpenUntil, lastSuccess, reports := map[], map[], map[], [];
    }

    function Snapshot(): State
      reads this
    {
      State(failureStreak, circuitOpenUntil, lastSuccess, reports)
    }

    method CircuitOpen(p: string, now: int) returns (open: bool)
      ensures open == Open(cfg, Snapshot(), p, now)
    {
      if cfg.threshold <= 0 {
        return false;
      }
      open := p in circuitOpenUntil && now < circuitOpenUntil[p];
    }

    method RecordSuccess(p: string, now: int)
      modifies this
      ensures Snapshot() == AfterSuccess(old(Snapshot()), p, now)
    {
      var wasOpen := p in circuitOpenUntil;
      lastSuccess := lastSuccess[p := now];
      failureStreak := failureStreak[p := 0];
      circuitOpenUntil := circuitOpenUntil - {p};
      if wasOpen {
        reports := reports + [Recovered(p)];
      }
    }

    method RecordFailure(p: string, now: int)
      modifies this
      ensures Snapshot() == AfterFailure(cfg, old(Snapshot()), p, now)
    {
      if cfg.threshold <= 0 {
        return;
      }
      var streak := if p in failureStreak then failureStreak[p] + 1 else 1;
      failureStreak := failureStreak[p := streak];
      if streak < cfg.threshold {
        return;
      }
      var exp: nat := streak - cfg.threshold;
      if exp > SHIFT_LIMIT {
        exp := SHIFT_LIMIT;
      }
      var delay := ShiftLeft(cfg.base, exp);
      if delay <= 0 || delay > cfg.max {
        delay := cfg.max;
      }
      var alreadyOpen := p in circuitOpenUntil;
      circuitOpenUntil := circuitOpenUntil[p := now + delay];
      if !alreadyOpen {
        reports := reports + [Down(p, streak)];
      }
    }

    method OrderedProviders(preferred: Option<string>) returns (out: seq<string>)
      ensures out == Preference(cfg, known, preferred)
    {
      out := [];
      if preferred.Some? && preferred.value in known {
        out := [preferred.value];
      }
      ghost var first := out;
      var i := 0;
      while i < |cfg.order|
        invariant 0 <= i <= |cfg.order|
        invariant out + OthersThan(preferred, cfg.order[i..]) == first + OthersThan(preferred, cfg.order)
      {
        assert cfg.order[i..][1..] == cfg.order[i + 1..];
        if Some(cfg.order[i]) != preferred {
          ghost var before, rest := out, OthersThan(preferred, cfg.order[i + 1..]);
          out := out + [cfg.order[i]];
          assert out + rest == before + ([cfg.order[i]] + rest);
        }
        i := i + 1;
      }
    }

    /** Tries the providers in turn and stops at the first that answers. */
    method Execute(providers: seq<string>, calls: seq<Call>) returns (winner: Option<nat>, called: set<nat>)
      requires |calls| == |providers|
      modifies this
      ensures Served(Snapshot(), winner, called) == ExecuteFrom(cfg, old(Snapshot()), providers, calls, 0)
    {
      winner, called := None, {};
      var i := 0;
      while i < |providers|
        invariant 0 <= i <= |providers| && winner.None?
        invariant var rest := ExecuteFrom(cfg, Snapshot(), providers, calls, i);
                  rest.(called := called + rest.called) == ExecuteFrom(cfg, old(Snapshot()), providers, calls, 0)
      {
        ghost var whole, before, seen := ExecuteFrom(cfg, old(Snapshot()), providers, calls, 0), Snapshot(), called;
        var open := CircuitOpen(providers[i], calls[i].checkedAt);
        if !open {
          called := called + {i};
          if calls[i].ok {
            RecordSuccess(providers[i], calls[i].doneAt);
            winner := Some(i);
            return;
          }
          RecordFailure(providers[i], calls[i].doneAt);
          ghost var rest := ExecuteFrom(cfg, Snapshot(), providers, calls, i + 1);
          assert seen + (rest.called + {i}) == called + rest.called;
        }
        i := i + 1;
      }
    }

    /** Up exactly while some provider's success is recent enough; without any
        success at all, unknown during the startup grace and down after it. */
    method Health(now: int) returns (h: HealthStatus)
      ensures h.Healthy? <==> exists p :: p in lastSuccess && now < lastSuccess[p] + cfg.staleness
      ensures h.Unknown? <==> lastSuccess == map[] && now < startedAt + cfg.grace
    {
      var newest: Option<int> := None;
      var left := lastSuccess.Keys;
      while left != {}
        invariant left <= lastSuccess.Keys
        invariant newest.None? <==> left == lastSuccess.Keys
        invariant newest.Some? ==> exists p :: p in lastSuccess.Keys - left && lastSuccess[p] == newest.value
        invariant newest.Some? ==> forall p :: p in lastSuccess.Keys - left ==> lastSuccess[p] <= newest.value
        decreases left
      {
        var p :| p in left;
        if newest.None? || lastSuccess[p] > newest.value {
          newest := Some(lastSuccess[p]);
        }
        left := left - {p};
        assert p in lastSuccess.Keys - left;
      }
      if newest.None? {
        return if now < startedAt + cfg.grace then Unknown else Unhealthy;
      }
      h := if now < newest.value + cfg.staleness then Healthy else Unhealthy;
    }
  }

  // ---------- Failover ----------

  /** The state in which provider k's circuit is looked at, when nobody from i
      on has served before. */
  function Tried(cfg: Config, st: State, providers: seq<string>, calls: seq<Call>, i: nat, k: nat): State
    requires |calls| == |providers| && i <= k <= |providers|
    decreases k - i
  {
    if i == k then st
    else
      var next := if Open(cfg, st, providers[i], calls[i].checkedAt) then st
                  else AfterFailure(cfg, st, providers[i], calls[i].doneAt);
      Tried(cfg, next, providers, calls, i + 1, k)
  }

  predicate SeenOpen(cfg: Config, st: State, providers: seq<string>, calls: seq<Call>, i: nat, k: nat)
    requires |calls| == |providers| && i <= k < |providers|
  {
    Open(cfg, Tried(cfg, st, providers, calls, i, k), providers[k], calls[k].checkedAt)
  }

  lemma SeenLater(cfg: Config, st: State, next: State, providers: seq<string>, calls: seq<Call>, i: nat)
    requires |calls| == |providers| && i < |providers|
    requires next == if Open(cfg, st, providers[i], calls[i].checkedAt) then st
                     else AfterFailure(cfg, st, providers[i], calls[i].doneAt)
    ensures forall k :: i < k < |providers| ==>
              (SeenOpen(cfg, st, providers, calls, i, k) <==> SeenOpen(cfg, next, providers, calls, i + 1, k))
  {
  }

  /** The first provider that was neither short-circuited nor failing serves;
      everybody before it was one or the other; nobody seen as open, and
      nobody after the winner, is called. A provider may be listed again. */
  lemma {:induction false} FailoverPicksFirstHealthy(cfg: Config, st: State, providers: seq<string>,
                                                     calls: seq<Call>, i: nat)
    requires |calls| == |providers| && i <= |providers|
    ensures var r := ExecuteFrom(cfg, st, providers, calls, i);
            && (forall k :: k in r.called <==>
                  && i <= k < |providers| && (r.winner.Some? ==> k <= r.winner.value)
                  && !SeenOpen(cfg, st, providers, calls, i, k))
            && (r.winner.Some? ==>
                  && i <= r.winner.value < |providers| && r.winner.value in r.called && calls[r.winner.value].ok
                  && forall k :: k in r.called && k < r.winner.value ==> !calls[k].ok)
            && (r.winner.None? ==> forall k :: k in r.called ==> !calls[k].ok)
    decreases |providers| - i
  {
    if i < |providers| {
      if Open(cfg, st, providers[i], calls[i].checkedAt) {
        FailoverPicksFirstHealthy(cfg, st, providers, calls, i + 1);
        SeenLater(cfg, st, st, providers, calls, i);
      } else if !calls[i].ok {
        var next := AfterFailure(cfg, st, providers[i], calls[i].doneAt);
        FailoverPicksFirstHealthy(cfg, next, providers, calls, i + 1);
        SeenLater(cfg, st, next, providers, calls, i);
      }
    }
  }

  /** When no provider is listed twice, each is seen as it was at the start. */
  lemma {:induction false} SeenAsAtStart(cfg: Config, st: State, providers: seq<string>, calls: seq<Call>, i: nat, k: nat)
    requires |calls| == |providers| && i <= k < |providers|
    requires forall j :: i <= j < k ==> providers[j] != providers[k]
    ensures SeenOpen(cfg, st, providers, calls, i, k) <==> Open(cfg, st, providers[k], calls[k].checkedAt)
    decreases k - i
  {
    if i < k {
      var next := if Open(cfg, st, providers[i], calls[i].checkedAt) then st
                  else AfterFailure(cfg, st, providers[i], calls[i].doneAt);
      SeenAsAtStart(cfg, next, providers, calls, i + 1, k);
    }
  }

  // ---------- Opening, and closing again ----------

  /** Failures of one provider at these instants, nothing else in between. */
  function Failing(cfg: Config, st: State, p: string, instants: seq<int>): State {
    if instants == [] then st
    else AfterFailure(cfg, Failing(cfg, st, p, instants[..|instants| - 1]), p, instants[|instants| - 1])
  }

  /** From a streak of zero, the circuit opens at the failure that makes the
      threshold full, and each further one moves its end to its own delay. */
  lemma {:induction false} OpensAtThreshold(cfg: Config, st: State, p: string, instants: seq<int>)
    requires cfg.threshold > 0 && Streak(st, p) == 0 && p !in st.openUntil
    ensures var after, n := Failing(cfg, st, p, instants), |instants|;
            && Streak(after, p) == n
            && (p in after.openUntil <==> n >= cfg.threshold)
            && (n >= cfg.threshold ==>
                  && after.openUntil[p] == instants[n - 1] + Delay(cfg, n)
                  && after.reports == st.reports + [Down(p, cfg.threshold)])
            && (n < cfg.threshold ==> after.reports == st.reports)
    decreases |instants|
  {
    if instants != [] {
      OpensAtThreshold(cfg, st, p, instants[..|instants| - 1]);
    }
  }

  /** After a failure that makes the threshold full the provider is tried again
      exactly from the end of the delay on. If that succeeds, its circuit is
      closed, its streak is zero and its recovery is reported; before, nothing
      is called and nothing changes. */
  lemma RecoversExactlyWhen(cfg: Config, st: State, p: string, now: int, call: Call)
    requires cfg.threshold > 0 && Streak(st, p) + 1 >= cfg.threshold && call.ok
    ensures var open := AfterFailure(cfg, st, p, now);
            var r := ExecuteFrom(cfg, open, [p], [call], 0);
            && (r.winner == Some(0) <==> call.checkedAt >= now + Delay(cfg, Streak(st, p) + 1))
            && (r.winner == Some(0) ==>
                  && p !in r.state.openUntil && Streak(r.state, p) == 0 && r.called == {0}
                  && p in r.state.lastSuccess && r.state.lastSuccess[p] == call.doneAt
                  && r.state.reports == open.reports + [Recovered(p)])
            && (r.winner != Some(0) ==> r == Served(open, None, {}))
  {
    var open := AfterFailure(cfg, st, p, now);
    assert ExecuteFrom(cfg, open, [p], [call], 1) == Served(open, None, {});
  }

  /** A call that is let through and fails counts; a success while the circuit has
      no entry reports nothing. */
  lemma LetThrough(cfg: Config, st: State, p: string, call: Call)
    requires p !in st.openUntil
    ensures var r := ExecuteFrom(cfg, st, [p], [call], 0);
            && r.called == {0}
            && (call.ok ==> r.winner == Some(0) && r.state.reports == st.reports && Streak(r.state, p) == 0)
            && (call.ok ==> p in r.state.lastSuccess && r.state.lastSuccess[p] == call.doneAt)
            && (!call.ok ==>
                  r.winner.None? && Streak(r.state, p) == Streak(st, p) + if cfg.threshold > 0 then 1 else 0)
  {
    var after := AfterFailure(cfg, st, p, call.doneAt);
    assert ExecuteFrom(cfg, after, [p], [call], 1) == Served(after, None, {});
  }

  /** With the breaker off, every provider is tried until one answers, and no
      circuit ever gets an entry. */
  lemma {:induction false} BreakerOff(cfg: Config, st: State, providers: seq<string>, calls: seq<Call>, i: nat)
    requires cfg.threshold <= 0 && |calls| == |providers| && i <= |providers|
    ensures var r := ExecuteFrom(cfg, st, providers, calls, i);
            && (r.winner.Some? <==> exists k :: i <= k < |providers| && calls[k].ok)
            && r.state.openUntil.Keys <= st.openUntil.Keys
            && forall k :: i <= k < |providers| && (forall j :: i <= j < k ==> !calls[j].ok) ==> k in r.called
    decreases |providers| - i
  {
    if i < |providers| && !calls[i].ok {
      BreakerOff(cfg, st, providers, calls, i + 1);
    }
  }

  /** What is recorded about one provider leaves the others alone. */
  lemma OthersKeepTheirs(cfg: Config, st: State, p: string, now: int, q: string)
    requires q != p
    ensures forall after :: after == AfterSuccess(st, p, now) || after == AfterFailure(cfg, st, p, now) ==>
              && Streak(after, q) == Streak(st, q)
              && (q in after.openUntil <==> q in st.openUntil)
              && (q in st.openUntil ==> after.openUntil[q] == st.openUntil[q])
              && (q in after.lastSuccess <==> q in st.lastSuccess)
              && (q in st.lastSuccess ==> after.lastSuccess[q] == st.lastSuccess[q])
  {
  }

  lemma {:induction false} OthersJoin(q: string, a: seq<string>, b: seq<string>)
    requires q !in a
    ensures OthersThan(Some(q), a + b) == a + OthersThan(Some(q), b)
  {
    if a == [] {
      assert a + b == b;
    } else {
      OthersJoin(q, a[1..], b);
      assert (a + b)[1..] == a[1..] + b && a == [a[0]] + a[1..];
    }
  }

  lemma {:induction false} OthersAlone(q: string, order: seq<string>)
    requires q !in order
    ensures OthersThan(Some(q), order) == order
  {
    if order != [] {
      OthersAlone(q, order[1..]);
    }
  }

  lemma {:induction false} NobodyPreferred(order: seq<string>)
    ensures OthersThan(None, order) == order
  {
    if order != [] {
      NobodyPreferred(order[1..]);
    }
  }

  /** A known provider that is preferred comes first and the others keep their
      order; an unknown one is not tried at all. */
  lemma PreferredComesFirst(cfg: Config, known: set<string>, q: string, a: seq<string>, b: seq<string>)
    requires cfg.order == a + ([q] + b) && q !in a && q !in b
    ensures Preference(cfg, known, Some(q)) == (if q in known then [q] else []) + (a + b)
    ensures Preference(cfg, known, None) == cfg.order
  {
    OthersJoin(q, a, [q] + b);
    OthersAlone(q, b);
    assert ([q] + b)[1..] == b && [] + OthersThan(Some(q), b) == b;
    NobodyPreferred(cfg.order);
    assert [] + cfg.order == cfg.order;
  }

  // ---------- Transitions over any interleaving ----------

  /** The critical sections of concurrent callers, in the order the mutex let
      them in. */
  datatype Section = Success(p: string, now: int) | Failure(p: string, now: int)

  function AfterSections(cfg: Config, st: State, sections: seq<Section>): State {
    if sections == [] then st
    else
      var s, before := sections[|sections| - 1], AfterSections(cfg, st, sections[..|sections| - 1]);
      if s.Success? then AfterSuccess(before, s.p, s.now) else AfterFailure(cfg, before, s.p, s.now)
  }

  function ReportsOf(reports: seq<Report>, p: string): seq<Report> {
    if reports == [] then []
    else
      var last := reports[|reports| - 1];
      ReportsOf(reports[..|reports| - 1], p) + if last.provider == p then [last] else []
  }

  predicate Alternates(reports: seq<Report>) {
    forall i :: 0 <= i < |reports| ==> (reports[i].Down? <==> i % 2 == 0)
  }

  lemma ReportsPush(reports: seq<Report>, r: Report, p: string)
    ensures ReportsOf(reports + [r], p) == ReportsOf(reports, p) + if r.provider == p then [r] else []
  {
    assert (reports + [r])[..|reports|] == reports;
  }

  /** A provider's reports are Down, Recovered, Down, ... in strict turn; its
      circuit has an entry exactly between a Down and the Recovered that
      closes it; an entry stands on a streak of at least the threshold. */
  predicate InTurn(cfg: Config, st: State, p: string) {
    var mine := ReportsOf(st.reports, p);
    && Alternates(mine)
    && (p in st.openUntil <==> |mine| % 2 == 1)
    && (p in st.openUntil ==> Streak(st, p) >= cfg.threshold > 0)
    && Streak(st, p) >= 0
  }

  lemma SuccessKeepsTurn(cfg: Config, st: State, q: string, now: int, p: string)
    requires InTurn(cfg, st, p)
    ensures InTurn(cfg, AfterSuccess(st, q, now), p)
  {
    ReportsPush(st.reports, Recovered(q), p);
  }

  lemma OtherFailure(cfg: Config, st: State, q: string, now: int, p: string)
    requires q != p
    ensures var after := AfterFailure(cfg, st, q, now);
            ReportsOf(after.reports, p) == ReportsOf(st.reports, p) && Streak(after, p) == Streak(st, p)
            && (p in after.openUntil <==> p in st.openUntil)
  {
    ReportsPush(st.reports, Down(q, Streak(st, q) + 1), p);
  }

  lemma AlternatesPush(mine: seq<Report>, r: Report)
    requires Alternates(mine) && (r.Down? <==> |mine| % 2 == 0)
    ensures Alternates(mine + [r])
  {
  }

  lemma OwnFailure(cfg: Config, st: State, now: int, p: string)
    requires InTurn(cfg, st, p)
    ensures InTurn(cfg, AfterFailure(cfg, st, p, now), p)
  {
    var down := Down(p, Streak(st, p) + 1);
    ReportsPush(st.reports, down, p);
    if p !in st.openUntil {
      AlternatesPush(ReportsOf(st.reports, p), down);
    }
  }

  lemma FailureKeepsTurn(cfg: Config, st: State, q: string, now: int, p: string)
    requires InTurn(cfg, st, p)
    ensures InTurn(cfg, AfterFailure(cfg, st, q, now), p)
  {
    if q == p {
      OwnFailure(cfg, st, now, p);
    } else {
      OtherFailure(cfg, st, q, now, p);
    }
  }

  /** Whatever the interleaving of the critical sections. */
  lemma {:induction false} TransitionsAlternate(cfg: Config, sections: seq<Section>, p: string)
    ensures InTurn(cfg, AfterSections(cfg, State(map[], map[], map[], []), sections), p)
  {
    if sections != [] {
      var front, s := sections[..|sections| - 1], sections[|sections| - 1];
      TransitionsAlternate(cfg, front, p);
      var before := AfterSections(cfg, State(map[], map[], map[], []), front);
      if s.Success? {
        SuccessKeepsTurn(cfg, before, s.p, s.now, p);
      } else {
        FailureKeepsTurn(cfg, before, s.p, s.now, p);
      }
    }
  }

  // ---------- How many calls an outage costs ----------

  /** Calls to one provider, one after the other, that are all let through
      and all fail. */
  predicate Outage(cfg: Config, st: State, p: string, calls: seq<Call>)
    decreases |calls|
  {
    calls == [] ||
    (&& !Open(cfg, st, p, calls[0].checkedAt) && !calls[0].ok && calls[0].checkedAt <= calls[0].doneAt
     && (|calls| > 1 ==> calls[0].doneAt <= calls[1].checkedAt)
     && Outage(cfg, AfterFailure(cfg, st, p, calls[0].doneAt), p, calls[1..]))
  }

  /** From the k-th failure after the threshold on, every delay is d. */
  ghost predicate SettlesAt(cfg: Config, k: nat, d: int) {
    forall streak :: streak >= cfg.threshold + k ==> Delay(cfg, streak) == d
  }

  lemma FirstGap(cfg: Config, st: State, p: string, calls: seq<Call>)
    requires cfg.threshold > 0 && |calls| > 1 && Outage(cfg, st, p, calls)
    ensures calls[1].doneAt >= calls[0].doneAt
    ensures Streak(st, p) + 1 >= cfg.threshold ==> calls[1].doneAt >= calls[0].doneAt + Delay(cfg, Streak(st, p) + 1)
    ensures var next := AfterFailure(cfg, st, p, calls[0].doneAt);
            Outage(cfg, next, p, calls[1..]) && Streak(next, p) == Streak(st, p) + 1
  {
    var next := AfterFailure(cfg, st, p, calls[0].doneAt);
    assert Outage(cfg, next, p, calls[1..]);
    assert calls[1..][0] == calls[1];
  }

  /** Of n failing calls from a streak on, how many gaps between two of them
      are at the delay they settle at. */
  function FullGaps(streak: int, n: nat, settled: int): nat
    decreases n
  {
    if n <= 1 then 0 else FullGaps(streak + 1, n - 1, settled) + if streak + 1 >= settled then 1 else 0
  }

  lemma {:induction false} FullGapsAtLeast(streak: int, n: nat, settled: int)
    requires n >= 1
    ensures FullGaps(streak, n, settled) >= if streak + 1 >= settled then n - 1 else streak + n - settled
    decreases n
  {
    if n > 1 {
      FullGapsAtLeast(streak + 1, n - 1, settled);
    }
  }

  lemma SettledGap(cfg: Config, st: State, p: string, calls: seq<Call>, k: nat, d: int)
    requires cfg.threshold > 0 && SettlesAt(cfg, k, d)
    requires |calls| > 1 && Outage(cfg, st, p, calls)
    ensures calls[1].doneAt - calls[0].doneAt >= if Streak(st, p) + 1 >= cfg.threshold + k then d else 0
  {
    FirstGap(cfg, st, p, calls);
  }

  lemma AddGap(gaps: nat, full: bool, max: int, rest: int, first: int)
    requires rest >= gaps * max && first >= if full then max else 0
    ensures rest + first >= (gaps + if full then 1 else 0) * max
  {
    assert (gaps + 1) * max == gaps * max + max;
  }

  lemma {:induction false} OutageGaps(cfg: Config, st: State, p: string, calls: seq<Call>, k: nat, d: int)
    requires cfg.threshold > 0 && SettlesAt(cfg, k, d)
    requires calls != [] && Outage(cfg, st, p, calls)
    ensures calls[|calls| - 1].doneAt - calls[0].doneAt >= FullGaps(Streak(st, p), |calls|, cfg.threshold + k) * d
    decreases |calls|
  {
    if |calls| > 1 {
      var streak, rest := Streak(st, p), calls[1..];
      FirstGap(cfg, st, p, calls);
      SettledGap(cfg, st, p, calls, k, d);
      OutageGaps(cfg, AfterFailure(cfg, st, p, calls[0].doneAt), p, rest, k, d);
      assert rest[0] == calls[1] && rest[|rest| - 1] == calls[|calls| - 1];
      AddGap(FullGaps(streak + 1, |rest|, cfg.threshold + k), streak + 1 >= cfg.threshold + k, d,
             rest[|rest| - 1].doneAt - rest[0].doneAt, calls[1].doneAt - calls[0].doneAt);
    }
  }

  lemma DivAtLeast(n: int, d: int, q: int)
    requires d > 0 && n >= q * d
    ensures n / d >= q
  {
    assert n == d * (n / d) + n % d;
    if n / d < q {
      MulMonotone(d, n / d + 1, q);
    }
  }

  /** Serialised calls during an outage: the threshold and the steps until the
      delay settles are paid once, every further call costs a whole delay. */
  lemma SettledCallBound(cfg: Config, p: string, calls: seq<Call>, k: nat, d: int)
    requires cfg.threshold > 0 && SettlesAt(cfg, k, d) && d > 0
    requires calls != [] && Outage(cfg, State(map[], map[], map[], []), p, calls)
    ensures |calls| <= cfg.threshold + k + (calls[|calls| - 1].doneAt - calls[0].doneAt) / d
  {
    var span, gaps := calls[|calls| - 1].doneAt - calls[0].doneAt, FullGaps(0, |calls|, cfg.threshold + k);
    OutageGaps(cfg, State(map[], map[], map[], []), p, calls, k, d);
    FullGapsAtLeast(0, |calls|, cfg.threshold + k);
    DivAtLeast(span, d, gaps);
  }

  /** The delay of every streak from the last doubling step on. */
  function LastDelay(cfg: Config): int {
    Delay(cfg, cfg.threshold + SHIFT_LIMIT)
  }

  lemma DelaySettles(cfg: Config)
    ensures SettlesAt(cfg, SHIFT_LIMIT, LastDelay(cfg))
  {
    forall streak | streak >= cfg.threshold + SHIFT_LIMIT ensures Delay(cfg, streak) == LastDelay(cfg) {
      assert Shift(cfg, streak) == SHIFT_LIMIT;
    }
  }

  /** Whatever the accepted settings, wrapping or not. */
  lemma OutageCallBound(cfg: Config, p: string, calls: seq<Call>)
    requires Accepted(cfg) && cfg.threshold > 0
    requires calls != [] && Outage(cfg, State(map[], map[], map[], []), p, calls)
    ensures 0 < LastDelay(cfg) <= cfg.max
    ensures |calls| <= cfg.threshold + SHIFT_LIMIT + (calls[|calls| - 1].doneAt - calls[0].doneAt) / LastDelay(cfg)
  {
    DelayInRange(cfg, cfg.threshold + SHIFT_LIMIT);
    DelaySettles(cfg);
    SettledCallBound(cfg, p, calls, SHIFT_LIMIT, LastDelay(cfg));
  }

  /** The doubling steps that reach the maximum, within the shift limit. */
  lemma SaturationPoint(cfg: Config, k: nat)
    requires Accepted(cfg) && cfg.threshold > 0 && cfg.base < 0x2_0000_0000
    requires k <= SHIFT_LIMIT && cfg.base * Pow(2, k) >= cfg.max
    ensures SettlesAt(cfg, k, cfg.max)
  {
    forall streak | streak >= cfg.threshold + k
      ensures Delay(cfg, streak) == cfg.max
    {
      DelayIsCappedDoubling(cfg, streak);
      PowMonotone(k, Shift(cfg, streak));
      MulBound(cfg.base, Pow(2, k), cfg.base, Pow(2, Shift(cfg, streak)));
    }
  }

  /** A base too small for thirty doublings to reach the maximum never gets
      there, however long the outage. */
  lemma NeverSaturates(cfg: Config, streak: int)
    requires Accepted(cfg) && 0 < cfg.threshold <= streak && cfg.base < 0x2_0000_0000
    requires cfg.base * Pow(2, SHIFT_LIMIT) < cfg.max
    ensures Delay(cfg, streak) <= LastDelay(cfg) == cfg.base * Pow(2, SHIFT_LIMIT) < cfg.max
  {
    DelayIsCappedDoubling(cfg, cfg.threshold + SHIFT_LIMIT);
    DelayIsCappedDoubling(cfg, streak);
    PowMonotone(Shift(cfg, streak), SHIFT_LIMIT);
    MulBound(cfg.base, Pow(2, Shift(cfg, streak)), cfg.base, Pow(2, SHIFT_LIMIT));
  }

  /** For any base: the delay comes to the maximum for good exactly unless the
      base, shifted by thirty, wraps to something positive below it. For a base
      under 2^33 ns that is exactly when thirty doublings reach it. */
  lemma SaturatesExactlyWhen(cfg: Config)
    requires Accepted(cfg) && cfg.threshold > 0
    ensures var product := cfg.base * Pow(2, SHIFT_LIMIT);
            && ((exists k :: SettlesAt(cfg, k, cfg.max)) <==> !(0 < Wrap64(product) < cfg.max))
            && (cfg.base < 0x2_0000_0000 ==> ((exists k :: SettlesAt(cfg, k, cfg.max)) <==> product >= cfg.max))
  {
    DelaySettles(cfg);
    if k :| SettlesAt(cfg, k, cfg.max) {
      var streak := cfg.threshold + k + SHIFT_LIMIT;
      assert Delay(cfg, streak) == cfg.max && Delay(cfg, streak) == LastDelay(cfg);
    }
    if cfg.base < 0x2_0000_0000 {
      SmallBaseDoesNotWrap(cfg.base, SHIFT_LIMIT);
      MulBound(1, 1, cfg.base, Pow(2, SHIFT_LIMIT));
    }
  }

  /** A nanosecond doubled thirty times is about a second, far from the 15
      minutes it is capped at. */
  lemma TinyBaseStaysShort(cfg: Config)
    requires cfg.threshold > 0 && cfg.base == 1 && cfg.max == DEFAULT_MAX
    ensures LastDelay(cfg) == 0x4000_0000 < cfg.max && forall k :: !SettlesAt(cfg, k, cfg.max)
  {
    PowersOfTwo();
    NeverSaturates(cfg, cfg.threshold);
    SaturatesExactlyWhen(cfg);
  }

  /** With the default settings an outage of T costs at most 8 + T / 15 min
      calls. */
  lemma DefaultOutage(cfg: Config, p: string, calls: seq<Call>)
    requires cfg.threshold == 3 && cfg.base == DEFAULT_BASE && cfg.max == DEFAULT_MAX
    requires calls != [] && Outage(cfg, State(map[], map[], map[], []), p, calls)
    ensures |calls| <= 8 + (calls[|calls| - 1].doneAt - calls[0].doneAt) / DEFAULT_MAX
  {
    forall streak | streak >= cfg.threshold + 5
      ensures Delay(cfg, streak) == cfg.max
    {
      DefaultDelay(cfg, streak - cfg.threshold);
      PowMonotone(5, streak - cfg.threshold);
      assert Pow(2, 5) == 32;
    }
    SettledCallBound(cfg, p, calls, 5, DEFAULT_MAX);
  }
}
