/** The transactional outbox: its table (internal/adapter/postgres/outbox.go),
    its daily partitions (internal/adapter/postgres/outbox_partitions.go,
    internal/app/retention.go) and its dispatcher
    (internal/app/outbox_dispatcher.go). Instants are nanoseconds, partitions
    are UTC days. */
module Outbox {
  import opened Wrappers
  import opened Numerals
  import opened WeekClock

  const MAX_ATTEMPTS: nat := 20
  const MAX_BACKOFF: nat := 300
  const LOOKAHEAD: nat := 2
  const BACKLOG_SCAN_DAYS: nat := 60

  type Id = nat

  /** The table a row was routed to: its day's partition, or the default one
      when that partition did not exist. */
  datatype Home = Daily(day: int) | Default

  datatype Row = Row(eventType: string, occurredAt: int, publishedAt: Option<int>,
                     attempts: nat, nextAttemptAt: int, home: Home)

  datatype Table = Table(rows: map<Id, Row>, partitions: set<int>)

  /** Every row is in exactly one of these three states. */
  predicate Published(r: Row) { r.publishedAt.Some? }
  predicate Dead(r: Row) { r.publishedAt.None? && r.attempts >= MAX_ATTEMPTS }
  predicate Waiting(r: Row) { r.publishedAt.None? && r.attempts < MAX_ATTEMPTS }

  predicate Due(r: Row, now: int) {
    Waiting(r) && r.nextAttemptAt <= now
  }

  // ---------- Statements on the table ----------

  function HomeOf(partitions: set<int>, occurredAt: int): Home {
    if DayOf(occurredAt) in partitions then Daily(DayOf(occurredAt)) else Default
  }

  function Enqueued(t: Table, id: Id, eventType: string, occurredAt: int): Table {
    t.(rows := t.rows[id := Row(eventType, occurredAt, None, 0, occurredAt, HomeOf(t.partitions, occurredAt))])
  }

  /** Least of 300 and 2 to the attempts made before this one, in seconds. */
  function Backoff(attempts: nat): (secs: nat)
    ensures 1 <= secs <= MAX_BACKOFF
  {
    if Pow(2, attempts) < MAX_BACKOFF then Pow(2, attempts) else MAX_BACKOFF
  }

  predicate Matches(t: Table, id: Id, occurredAt: int) {
    id in t.rows && t.rows[id].occurredAt == occurredAt
  }

  function MarkPublished(t: Table, id: Id, occurredAt: int, now: int): Table {
    if Matches(t, id, occurredAt) then t.(rows := t.rows[id := t.rows[id].(publishedAt := Some(now))]) else t
  }

  function MarkFailed(t: Table, id: Id, occurredAt: int, now: int): Table {
    if !Matches(t, id, occurredAt) then t
    else
      var r := t.rows[id];
      t.(rows := t.rows[id := r.(attempts := r.attempts + 1, nextAttemptAt := now + Backoff(r.attempts) * SECOND)])
  }

  function MarkDeferred(t: Table, id: Id, occurredAt: int, until: int): Table {
    if Matches(t, id, occurredAt) then t.(rows := t.rows[id := t.rows[id].(nextAttemptAt := until)]) else t
  }

  function DeadIds(t: Table): set<Id> {
    set id | id in t.rows && Dead(t.rows[id])
  }

  function Replayed(t: Table, now: int): Table {
    t.(rows := map id | id in t.rows ::
         if Dead(t.rows[id]) then t.rows[id].(attempts := 0, nextAttemptAt := now) else t.rows[id])
  }

  predicate Expired(r: Row, cutoff: int) {
    r.publishedAt.Some? && r.publishedAt.value < cutoff
  }

  function Pruned(t: Table, cutoff: int): Table {
    t.(rows := map id | id in t.rows && !Expired(t.rows[id], cutoff) :: t.rows[id])
  }

  /** A day's partition cannot be made while the default one holds rows of
      that day. */
  predicate EnsureFails(t: Table, day: int) {
    day !in t.partitions && exists id :: id in t.rows && t.rows[id].home.Default? && DayOf(t.rows[id].occurredAt) == day
  }

  function Ensured(t: Table, day: int): Table {
    if EnsureFails(t, day) then t else t.(partitions := t.partitions + {day})
  }

  predicate SeenEmpty(t: Table, day: int) {
    day in t.partitions && forall id :: id in t.rows ==> t.rows[id].home != Daily(day)
  }

  /** Dropping a partition takes whatever rows it holds with it. */
  function Dropped(t: Table, day: int): Table {
    Table(map id | id in t.rows && t.rows[id].home != Daily(day) :: t.rows[id], t.partitions - {day})
  }

  // ---------- What is pending ----------

  /** A batch: due rows without repetition, oldest first, as many as the limit
      allows, and nothing left out that is older than something taken. */
  predicate IsPending(t: Table, now: int, limit: nat, batch: seq<Id>) {
    && (forall i :: 0 <= i < |batch| ==> batch[i] in t.rows && Due(t.rows[batch[i]], now))
    && (forall i, j :: 0 <= i < j < |batch| ==>
          batch[i] != batch[j] && t.rows[batch[i]].occurredAt <= t.rows[batch[j]].occurredAt)
    && |batch| <= limit
    && (forall id :: id in t.rows && Due(t.rows[id], now) && id !in batch ==>
          |batch| == limit && forall i :: 0 <= i < |batch| ==> t.rows[batch[i]].occurredAt <= t.rows[id].occurredAt)
  }

  // ---------- When a row is due ----------

  /** One second after the first failure, twice as long after each further one,
      300 seconds at most. */
  lemma BackoffDoubles(a: nat)
    ensures Backoff(0) == 1 && Backoff(a + 1) == Min(2 * Backoff(a), 300)
  {
  }

  lemma DueAfterEnqueue(t: Table, id: Id, eventType: string, occurredAt: int, at: int)
    ensures Due(Enqueued(t, id, eventType, occurredAt).rows[id], at) <==> occurredAt <= at
  {
  }

  /** A failed row is due again when its delay is over, unless it was the last
      of twenty attempts. */
  lemma DueAfterFailure(t: Table, id: Id, now: int, at: int)
    requires id in t.rows && t.rows[id].publishedAt.None?
    ensures var r := t.rows[id];
            Due(MarkFailed(t, id, r.occurredAt, now).rows[id], at) <==>
              r.attempts < 19 && now + Backoff(r.attempts) * SECOND <= at
  {
  }

  lemma DueAfterDeferral(t: Table, id: Id, until: int, at: int)
    requires id in t.rows && t.rows[id].publishedAt.None?
    ensures var r := t.rows[id];
            Due(MarkDeferred(t, id, r.occurredAt, until).rows[id], at) <==> r.attempts < 20 && until <= at
  {
  }

  /** A published row is never due again, and stays until a cutoff later than
      its mark. */
  lemma PublishedIsDone(t: Table, id: Id, now: int, at: int, cutoff: int)
    requires id in t.rows
    ensures var after := MarkPublished(t, id, t.rows[id].occurredAt, now);
            !Due(after.rows[id], at) && (id in Pruned(after, cutoff).rows <==> now >= cutoff)
  {
  }

  /** Two failures in a row: the second delay is twice the first, or the most
      there is; the very first is a second. */
  lemma DelaysDouble(t: Table, id: Id, first: int, second: int)
    requires id in t.rows
    ensures var stamp := t.rows[id].occurredAt;
            var once := MarkFailed(t, id, stamp, first);
            var twice := MarkFailed(once, id, stamp, second);
            && (t.rows[id].attempts == 0 ==> once.rows[id].nextAttemptAt == first + SECOND)
            && twice.rows[id].nextAttemptAt - second == Min(2 * (once.rows[id].nextAttemptAt - first), 300 * SECOND)
  {
    BackoffDoubles(t.rows[id].attempts);
  }

  /** A replay wakes the rows that gave up after twenty attempts, and those
      alone: they are due from then on. */
  lemma ReplayWakesTheDead(t: Table, now: int, id: Id, at: int)
    requires id in t.rows
    ensures var r, after := t.rows[id], Replayed(t, now);
            && after.rows.Keys == t.rows.Keys
            && (r.publishedAt.None? && r.attempts >= 20 ==>
                  after.rows[id] == r.(attempts := 0, nextAttemptAt := now) && (Due(after.rows[id], at) <==> now <= at))
            && (r.publishedAt.Some? || r.attempts < 20 ==> after.rows[id] == r)
  {
  }

  // ---------- Where a row is ----------

  /** Every row is in its day's partition, or in the default one if there is
      none. */
  predicate Routed(t: Table) {
    forall id :: id in t.rows ==>
      var day := DayOf(t.rows[id].occurredAt);
      t.rows[id].home == if day in t.partitions then Daily(day) else Default
  }

  lemma EnqueueRoutes(t: Table, id: Id, eventType: string, occurredAt: int)
    requires Routed(t)
    ensures Routed(Enqueued(t, id, eventType, occurredAt))
  {
  }

  /** A partition cannot be made exactly when a row would then be in the wrong
      one. */
  lemma EnsureFailsExactlyWhen(t: Table, day: int)
    requires Routed(t)
    ensures EnsureFails(t, day) <==> !Routed(t.(partitions := t.partitions + {day}))
    ensures Routed(Ensured(t, day)) && (EnsureFails(t, day) || day in Ensured(t, day).partitions)
  {
    var u := t.(partitions := t.partitions + {day});
    if EnsureFails(t, day) {
      var id :| id in t.rows && t.rows[id].home.Default? && DayOf(t.rows[id].occurredAt) == day;
      assert id in u.rows;
    } else {
      forall id | id in u.rows
        ensures var at := DayOf(u.rows[id].occurredAt); u.rows[id].home == if at in u.partitions then Daily(at) else Default
      {
        assert t.rows[id].home == u.rows[id].home;
      }
    }
  }

  /** An existing partition is seen empty exactly when dropping it takes no row; then
      it is gone, and it alone. */
  lemma SeenEmptyExactlyWhen(t: Table, day: int)
    requires day in t.partitions
    ensures SeenEmpty(t, day) <==> Dropped(t, day).rows == t.rows
    ensures forall d :: d in Dropped(t, day).partitions <==> d in t.partitions && d != day
    ensures Routed(t) && SeenEmpty(t, day) ==> Routed(Dropped(t, day))
  {
    if Dropped(t, day).rows == t.rows {
      forall id | id in t.rows ensures t.rows[id].home != Daily(day) {
        assert id in Dropped(t, day).rows;
      }
    }
  }

  // ---------- Sweeping ----------

  predicate SweptAway(t: Table, swept: seq<int>, kept: set<int>, day: int) {
    day in swept && day !in kept && SeenEmpty(t, day)
  }

  /** The day a sweep looks at k days before its cutoff. */
  function SweptDay(now: int, ttl: int, k: nat): int {
    DayOf(DayOf(now) * DAY - ttl - DAY - k * DAY)
  }

  function EndOfDay(day: int): int {
    (day + 1) * DAY
  }

  /** A time rounded up to whole days. */
  function WholeDays(time: int): int {
    (time + DAY - 1) / DAY * DAY
  }

  lemma DivIs(t: int, day: int)
    requires day * DAY <= t < (day + 1) * DAY
    ensures DayOf(t) == day
  {
  }

  /** The k-th day a sweep goes back to ended the retention time, in whole days,
      and k more days before midnight: one at least before the sweep. */
  lemma SweptDaysAreOld(now: int, ttl: int, k: nat)
    requires ttl > 0 && k >= 1
    ensures EndOfDay(SweptDay(now, ttl, k)) + WholeDays(ttl) + k * DAY == DayOf(now) * DAY
    ensures EndOfDay(SweptDay(now, ttl, k)) + WholeDays(ttl) + DAY <= now
    ensures SweptDay(now, ttl, k) < DayOf(now)
  {
    var days := (ttl + DAY - 1) / DAY;
    DivIs(DayOf(now) * DAY - ttl - DAY - k * DAY, DayOf(now) - days - 1 - k);
    assert EndOfDay(SweptDay(now, ttl, k)) == (DayOf(now) - days - k) * DAY;
  }

  class OutboxTable {
    var rows: map<Id, Row>
    var partitions: set<int>

    constructor ()
      ensures Snapshot() == Table(map[], {})
    {
      rows, partitions := map[], {};
    }

    function Snapshot(): Table
      reads this
    {
      Table(rows, partitions)
    }

    method Enqueue(id: Id, eventType: string, occurredAt: int)
      requires id !in rows
      modifies this
      ensures Snapshot() == Enqueued(old(Snapshot()), id, eventType, occurredAt)
      ensures Due(rows[id], occurredAt)
    {
      rows := rows[id := Row(eventType, occurredAt, None, 0, occurredAt, HomeOf(partitions, occurredAt))];
    }

    method Pending(now: int, limit: nat) returns (batch: seq<Id>)
      ensures IsPending(Snapshot(), now, limit, batch)
    {
      batch := [];
      var left := set id | id in rows && Due(rows[id], now);
      while left != {} && |batch| < limit
        invariant |batch| <= limit
        invariant forall id :: id in left ==> id in rows && Due(rows[id], now) && id !in batch
        invariant forall id :: id in rows && Due(rows[id], now) ==> id in left || id in batch
        invariant forall i :: 0 <= i < |batch| ==> batch[i] in rows && Due(rows[batch[i]], now)
        invariant forall i, j :: 0 <= i < j < |batch| ==>
                    batch[i] != batch[j] && rows[batch[i]].occurredAt <= rows[batch[j]].occurredAt
        invariant forall i, id :: 0 <= i < |batch| && id in left ==> rows[batch[i]].occurredAt <= rows[id].occurredAt
        decreases left
      {
        var oldest := Oldest(left);
        left := left - {oldest};
        batch := batch + [oldest];
      }
    }

    method Oldest(ids: set<Id>) returns (oldest: Id)
      requires ids != {} && ids <= rows.Keys
      ensures oldest in ids && forall id :: id in ids ==> rows[oldest].occurredAt <= rows[id].occurredAt
    {
      oldest :| oldest in ids;
      var left := ids - {oldest};
      while left != {}
        invariant left <= ids && oldest in ids
        invariant forall id :: id in ids - left ==> rows[oldest].occurredAt <= rows[id].occurredAt
        decreases left
      {
        var id :| id in left;
        if rows[id].occurredAt < rows[oldest].occurredAt {
          oldest := id;
        }
        left := left - {id};
      }
    }

    method MarkAsPublished(id: Id, occurredAt: int, now: int)
      modifies this
      ensures Snapshot() == MarkPublished(old(Snapshot()), id, occurredAt, now)
    {
      if id in rows && rows[id].occurredAt == occurredAt {
        rows := rows[id := rows[id].(publishedAt := Some(now))];
      }
    }

    method MarkAsFailed(id: Id, occurredAt: int, now: int)
      modifies this
      ensures Snapshot() == MarkFailed(old(Snapshot()), id, occurredAt, now)
    {
      if id in rows && rows[id].occurredAt == occurredAt {
        var before := rows[id];
        rows := rows[id := before.(attempts := before.attempts + 1)];
        rows := rows[id := rows[id].(nextAttemptAt := now + Backoff(before.attempts) * SECOND)];
      }
    }

    method Defer(id: Id, occurredAt: int, until: int)
      modifies this
      ensures Snapshot() == MarkDeferred(old(Snapshot()), id, occurredAt, until)
    {
      if id in rows && rows[id].occurredAt == occurredAt {
        rows := rows[id := rows[id].(nextAttemptAt := until)];
      }
    }

    method ReplayDeadLetters(now: int) returns (count: nat)
      modifies this
      ensures Snapshot() == Replayed(old(Snapshot()), now)
      ensures count == |DeadIds(old(Snapshot()))|
      ensures DeadIds(Snapshot()) == {}
      ensures forall id :: id in DeadIds(old(Snapshot())) ==> id in rows && Due(rows[id], now)
    {
      count := |DeadIds(Snapshot())|;
      rows := map id | id in rows ::
          if Dead(rows[id]) then rows[id].(attempts := 0, nextAttemptAt := now) else rows[id];
    }

    method DeletePublishedBefore(cutoff: int)
      modifies this
      ensures Snapshot() == Pruned(old(Snapshot()), cutoff)
    {
      rows := map id | id in rows && !Expired(rows[id], cutoff) :: rows[id];
    }

    /** fails says that the statement ran into a lock timeout or another error
        of its own. */
    method EnsurePartition(day: int, fails: bool) returns (ok: bool)
      modifies this
      ensures ok <==> !fails && !EnsureFails(old(Snapshot()), day)
      ensures Snapshot() == if fails then old(Snapshot()) else Ensured(old(Snapshot()), day)
    {
      ok := !fails && !EnsureFails(Snapshot(), day);
      if ok {
        partitions := partitions + {day};
      }
    }

    /** The two transactions of the drop with nothing in between; locked says
        that the second one ran into a lock timeout. */
    method DropPartitionIfEmpty(day: int, locked: bool) returns (dropped: bool)
      modifies this
      ensures dropped <==> SeenEmpty(old(Snapshot()), day) && !locked
      ensures Snapshot() == if dropped then Dropped(old(Snapshot()), day) else old(Snapshot())
      ensures rows == old(rows)
    {
      dropped := false;
      if day !in partitions || !(forall id :: id in rows ==> rows[id].home != Daily(day)) {
        return;
      }
      if !locked {
        partitions := partitions - {day};
        dropped := true;
        assert rows == (map id | id in rows && rows[id].home != Daily(day) :: rows[id]);
      }
    }

    /** One sweep's partition work: which days it tries to make and which it
        tries to drop, in order. A day's trouble does not keep the next from its
        turn: unmade holds the days whose making fails, kept those whose drop
        does. */
    method MaintainPartitions(now: int, ttl: int, unmade: set<int>, kept: set<int>) returns (ensured: seq<int>, swept: seq<int>)
      modifies this
      ensures ttl <= 0 ==> ensured == [] && swept == [] && Snapshot() == old(Snapshot())
      ensures ttl > 0 ==> ensured == [DayOf(now), DayOf(now) + 1, DayOf(now) + 2]
      ensures ttl > 0 ==> |swept| == BACKLOG_SCAN_DAYS
      ensures ttl > 0 ==> forall k :: 0 <= k < |swept| ==> swept[k] == SweptDay(now, ttl, BACKLOG_SCAN_DAYS - k)
      ensures rows == old(rows)
      ensures ttl > 0 ==> forall day :: DayOf(now) <= day <= DayOf(now) + LOOKAHEAD ==>
                (day in partitions <==> day in old(partitions) || (day !in unmade && !EnsureFails(old(Snapshot()), day)))
      ensures ttl > 0 ==> forall day :: !(DayOf(now) <= day <= DayOf(now) + LOOKAHEAD) ==>
                (day in partitions <==> day in old(partitions) && !SweptAway(old(Snapshot()), swept, kept, day))
    {
      ensured, swept := [], [];
      if ttl <= 0 {
        return;
      }
      var today := DayOf(now) * DAY;
      var i := 0;
      while i <= LOOKAHEAD
        invariant 0 <= i <= LOOKAHEAD + 1 && rows == old(rows) && swept == []
        invariant ensured == [DayOf(now), DayOf(now) + 1, DayOf(now) + 2][..i]
        invariant forall day :: DayOf(now) <= day < DayOf(now) + i ==>
                    (day in partitions <==> day in old(partitions) || (day !in unmade && !EnsureFails(old(Snapshot()), day)))
        invariant forall day :: !(DayOf(now) <= day < DayOf(now) + i) ==> (day in partitions <==> day in old(partitions))
      {
        var day := today + i * DAY;
        DayOfMidnight(DayOf(now) + i);
        var _ := EnsurePartition(DayOf(day), DayOf(day) in unmade);
        ensured := ensured + [DayOf(day)];
        i := i + 1;
      }
      var cutoff := today - ttl - DAY;
      var day := cutoff - BACKLOG_SCAN_DAYS * DAY;
      while day < cutoff
        invariant rows == old(rows) && |swept| <= BACKLOG_SCAN_DAYS
        invariant ensured == [DayOf(now), DayOf(now) + 1, DayOf(now) + 2]
        invariant day == cutoff - (BACKLOG_SCAN_DAYS - |swept|) * DAY
        invariant forall k :: 0 <= k < |swept| ==> swept[k] == SweptDay(now, ttl, BACKLOG_SCAN_DAYS - k)
        invariant forall day :: DayOf(now) <= day <= DayOf(now) + LOOKAHEAD ==>
                    (day in partitions <==> day in old(partitions) || (day !in unmade && !EnsureFails(old(Snapshot()), day)))
        invariant forall day :: !(DayOf(now) <= day <= DayOf(now) + LOOKAHEAD) ==>
                    (day in partitions <==> day in old(partitions) && !SweptAway(old(Snapshot()), swept, kept, day))
        decreases cutoff - day
      {
        SweptDaysAreOld(now, ttl, BACKLOG_SCAN_DAYS - |swept|);
        var _ := DropPartitionIfEmpty(DayOf(day), DayOf(day) in kept);
        swept := swept + [DayOf(day)];
        day := day + DAY;
      }
    }
  }

  lemma WholeDaysRoundsUp(time: int)
    ensures time <= WholeDays(time) < time + DAY && WholeDays(time) % DAY == 0
  {
  }

  // ---------- The dispatcher ----------

  /** What publishing a message came to. */
  datatype Outcome = Unsupported | Sent | Refused | Deferred(until: int)

  /** One message's turn: when it ends, and whether its update of the table
      went through. */
  datatype Turn = Turn(outcome: Outcome, now: int, written: bool)

  function Dispatched(t: Table, id: Id, occurredAt: int, turn: Turn): Table {
    if !turn.written then t
    else
      match turn.outcome
      case Sent => MarkPublished(t, id, occurredAt, turn.now)
      case Deferred(until) => MarkDeferred(t, id, occurredAt, until)
      case _ => MarkFailed(t, id, occurredAt, turn.now)
  }

  function DispatchedAll(t: Table, batch: seq<Id>, stamps: seq<int>, turns: seq<Turn>): Table
    requires |batch| == |stamps| == |turns|
  {
    if batch == [] then t
    else
      var n := |batch| - 1;
      Dispatched(DispatchedAll(t, batch[..n], stamps[..n], turns[..n]), batch[n], stamps[n], turns[n])
  }

  lemma DispatchedPush(t: Table, batch: seq<Id>, stamps: seq<int>, turns: seq<Turn>, i: nat)
    requires i < |batch| == |stamps| == |turns|
    ensures DispatchedAll(t, batch[..i + 1], stamps[..i + 1], turns[..i + 1]) ==
              Dispatched(DispatchedAll(t, batch[..i], stamps[..i], turns[..i]), batch[i], stamps[i], turns[i])
  {
    assert batch[..i + 1][..i] == batch[..i] && stamps[..i + 1][..i] == stamps[..i] && turns[..i + 1][..i] == turns[..i];
  }

  function StampOf(t: Table, id: Id): int {
    if id in t.rows then t.rows[id].occurredAt else 0
  }

  /** Each message carries the instant it was read with. */
  function StampsOf(t: Table, batch: seq<Id>): seq<int> {
    seq(|batch|, i requires 0 <= i < |batch| => StampOf(t, batch[i]))
  }

  /** A turn with another instant than the row's changes nothing. */
  lemma WrongStampIsNoOp(t: Table, id: Id, occurredAt: int, turn: Turn)
    requires id in t.rows ==> t.rows[id].occurredAt != occurredAt
    ensures Dispatched(t, id, occurredAt, turn) == t
  {
  }

  function TurnsOf(turns: Id -> Turn, batch: seq<Id>): seq<Turn> {
    seq(|batch|, i requires 0 <= i < |batch| => turns(batch[i]))
  }

  /** Whatever the other messages of the batch come to: a message that was sent is
      marked, a deferred one put off, any other failed and put off for its
      delay; a row outside the batch, or whose update fails, stays as it was. */
  lemma {:induction false} EachMessageOnItsOwn(t: Table, batch: seq<Id>, turns: Id -> Turn, id: Id)
    requires id in t.rows && forall i, j :: 0 <= i < j < |batch| ==> batch[i] != batch[j]
    ensures var r, after, turn := t.rows[id], DispatchedAll(t, batch, StampsOf(t, batch), TurnsOf(turns, batch)), turns(id);
            && after.rows.Keys == t.rows.Keys && after.partitions == t.partitions
            && after.rows[id] ==
                 if id !in batch || !turn.written then r
                 else match turn.outcome
                   case Sent => r.(publishedAt := Some(turn.now))
                   case Deferred(until) => r.(nextAttemptAt := until)
                   case _ => r.(attempts := r.attempts + 1, nextAttemptAt := turn.now + Backoff(r.attempts) * SECOND)
    decreases |batch|
  {
    if batch != [] {
      var n := |batch| - 1;
      EachMessageOnItsOwn(t, batch[..n], turns, id);
      assert StampsOf(t, batch)[..n] == StampsOf(t, batch[..n]) && TurnsOf(turns, batch)[..n] == TurnsOf(turns, batch[..n]);
      assert id in batch <==> id in batch[..n] || id == batch[n];
    }
  }

  class OutboxDispatcher {
    const table: OutboxTable

    constructor (table: OutboxTable)
      ensures this.table == table
    {
      this.table := table;
    }

    /** Reads a batch and works it off in order: one message's trouble does not
        keep the next from its turn. turns says how each message's turn would
        go; an unread batch ends the run. */
    method Dispatch(now: int, limit: nat, read: bool, turns: Id -> Turn) returns (batch: seq<Id>)
      modifies table
      ensures !read ==> batch == [] && table.Snapshot() == old(table.Snapshot())
      ensures read ==> IsPending(old(table.Snapshot()), now, limit, batch)
      ensures var before := old(table.Snapshot());
              table.Snapshot() == DispatchedAll(before, batch, StampsOf(before, batch), TurnsOf(turns, batch))
    {
      batch := [];
      if !read {
        return;
      }
      batch := table.Pending(now, limit);
      var stamps := StampsOf(table.Snapshot(), batch);
      ghost var outcomes := TurnsOf(turns, batch);
      var i := 0;
      while i < |batch|
        invariant 0 <= i <= |batch|
        invariant table.Snapshot() == DispatchedAll(old(table.Snapshot()), batch[..i], stamps[..i], outcomes[..i])
      {
        DispatchedPush(old(table.Snapshot()), batch, stamps, outcomes, i);
        DispatchOne(batch[i], stamps[i], turns(batch[i]));
        i := i + 1;
      }
      assert batch[..i] == batch && stamps[..i] == stamps && outcomes[..i] == outcomes;
    }

    method DispatchOne(id: Id, occurredAt: int, turn: Turn)
      modifies table
      ensures table.Snapshot() == Dispatched(old(table.Snapshot()), id, occurredAt, turn)
    {
      if !turn.written {
        return;
      }
      match turn.outcome
      case Unsupported => table.MarkAsFailed(id, occurredAt, turn.now);
      case Sent => table.MarkAsPublished(id, occurredAt, turn.now);
      case Deferred(until) => table.Defer(id, occurredAt, until);
      case Refused => table.MarkAsFailed(id, occurredAt, turn.now);
    }
  }
}
