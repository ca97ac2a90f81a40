/** Whole histories of the outbox: transactions that enqueue, a dispatcher
    that sends and then marks and may die in between, replays, deletes by age,
    and a sweep that looks at a partition in one transaction and drops it in
    another, interleaved in any order on one clock. */
module OutboxHistory {
  import opened Numerals
  import opened Wrappers
  import opened WeekClock
  import opened Outbox

  // ---------- The world ----------

  /** One message of a batch, as it was read. */
  datatype Message = Message(id: Id, occurredAt: int)

  /** The dispatcher: idle, or working a batch off. The first message has been
      published or not; in the former case its update is still to come. */
  datatype Dispatcher = Idle | Working(batch: seq<Message>, published: Option<Outcome>)

  datatype Entry = Enqueue(id: Id) | Send(id: Id) | Unmarked(id: Id) | Failure(id: Id) | Replay(id: Id)

  /** open holds the enqueuing transactions, by the message each is to add,
      with the instant each began: the row carries that instant, and appears
      when the transaction commits. */
  datatype World = World(now: int, table: Table, open: map<Id, int>, dispatcher: Dispatcher,
                         seenEmpty: Option<int>, firstFailure: map<Id, int>, log: multiset<Entry>)

  /** ttl is the retention time of published rows; no transaction commits more
      than txLimit after it began. */
  datatype Config = Config(ttl: int, txLimit: int)

  /** No transaction outlives the retention time, in whole days, and one more
      day; without a retention time nothing is swept. */
  predicate Safe(cfg: Config) {
    cfg.ttl <= 0 || cfg.txLimit <= WholeDays(cfg.ttl) + DAY
  }

  datatype Step = Wait(until: int)
                | Begin(id: Id) | Commit(id: Id, eventType: string) | Abort(id: Id)
                | Read(limit: nat, batch: seq<Message>)
                | Publish(outcome: Outcome) | Record(written: bool) | Crash
                | ReplayDead | Prune(cutoff: int) | Ensure(day: int)
                | Look(sweptAt: int, k: nat) | Drop | GiveUp

  function Ids(batch: seq<Message>): seq<Id> {
    seq(|batch|, i requires 0 <= i < |batch| => batch[i].id)
  }

  predicate Enabled(cfg: Config, w: World, s: Step) {
    match s
    case Wait(until) => until >= w.now
    case Begin(id) => w.log[Enqueue(id)] == 0 && id !in w.open && id !in w.table.rows
    case Commit(id, _) => id in w.open && w.now - w.open[id] <= cfg.txLimit
    case Abort(id) => id in w.open
    case Read(limit, batch) =>
      && w.dispatcher.Idle?
      && IsPending(w.table, w.now, limit, Ids(batch))
      && forall i :: 0 <= i < |batch| ==> Matches(w.table, Ids(batch)[i], batch[i].occurredAt)
    case Publish(_) => w.dispatcher.Working? && w.dispatcher.batch != [] && w.dispatcher.published.None?
    case Record(_) => w.dispatcher.Working? && w.dispatcher.batch != [] && w.dispatcher.published.Some?
    case Look(sweptAt, k) =>
      cfg.ttl > 0 && sweptAt <= w.now && 1 <= k <= BACKLOG_SCAN_DAYS && SeenEmpty(w.table, SweptDay(sweptAt, cfg.ttl, k))
    case Drop => w.seenEmpty.Some?
    case _ => true
  }

  function AfterRecord(w: World, written: bool): World
    requires w.dispatcher.Working? && w.dispatcher.batch != [] && w.dispatcher.published.Some?
  {
    var m, outcome := w.dispatcher.batch[0], w.dispatcher.published.value;
    var failed := written && (outcome.Refused? || outcome.Unsupported?);
    w.(table := Dispatched(w.table, m.id, m.occurredAt, Turn(outcome, w.now, written)),
       dispatcher := Working(w.dispatcher.batch[1..], None),
       firstFailure := if failed && m.id !in w.firstFailure then w.firstFailure[m.id := w.now] else w.firstFailure,
       log := w.log + (if failed then multiset{Failure(m.id)} else multiset{})
                    + (if outcome.Sent? && !written then multiset{Unmarked(m.id)} else multiset{}))
  }

  function AfterCrash(w: World): World {
    w.(dispatcher := Idle,
       log := if w.dispatcher.Working? && w.dispatcher.batch != [] && w.dispatcher.published == Some(Sent)
              then w.log + multiset{Unmarked(w.dispatcher.batch[0].id)} else w.log)
  }

  function ReplayEntries(ids: set<Id>): multiset<Entry> {
    multiset(set id | id in ids :: Replay(id))
  }

  function Apply(cfg: Config, w: World, s: Step): World {
    match s
    case Wait(until) => w.(now := until)
    case Begin(id) => w.(open := w.open[id := w.now])
    case Commit(id, eventType) =>
      if id in w.open then
        w.(open := w.open - {id}, table := Enqueued(w.table, id, eventType, w.open[id]), log := w.log + multiset{Enqueue(id)})
      else w
    case Abort(id) => w.(open := w.open - {id})
    case Read(_, batch) => w.(dispatcher := Working(batch, None))
    case Publish(outcome) =>
      if w.dispatcher.Working? && w.dispatcher.batch != [] then
        w.(dispatcher := w.dispatcher.(published := Some(outcome)),
           log := if outcome.Sent? then w.log + multiset{Send(w.dispatcher.batch[0].id)} else w.log)
      else w
    case Record(written) =>
      if w.dispatcher.Working? && w.dispatcher.batch != [] && w.dispatcher.published.Some? then AfterRecord(w, written) else w
    case Crash => AfterCrash(w)
    case ReplayDead =>
      w.(table := Replayed(w.table, w.now), firstFailure := w.firstFailure - DeadIds(w.table),
         log := w.log + ReplayEntries(DeadIds(w.table)))
    case Prune(cutoff) => w.(table := Pruned(w.table, cutoff))
    case Ensure(day) => w.(table := Ensured(w.table, day))
    case Look(sweptAt, k) => w.(seenEmpty := Some(SweptDay(sweptAt, cfg.ttl, k)))
    case Drop => if w.seenEmpty.Some? then w.(table := Dropped(w.table, w.seenEmpty.value), seenEmpty := None) else w
    case GiveUp => w.(seenEmpty := None)
  }

  predicate Possible(cfg: Config, w: World, steps: seq<Step>)
    decreases |steps|
  {
    steps == [] || (Enabled(cfg, w, steps[0]) && Possible(cfg, Apply(cfg, w, steps[0]), steps[1..]))
  }

  function After(cfg: Config, w: World, steps: seq<Step>): World
    decreases |steps|
  {
    if steps == [] then w else After(cfg, Apply(cfg, w, steps[0]), steps[1..])
  }

  function Start(now: int): World {
    World(now, Table(map[], {}), map[], Idle, None, map[], multiset{})
  }

  // ---------- What every step keeps ----------

  /** The first message of a batch has been sent and waits for its mark. */
  predicate AwaitsMark(w: World, id: Id) {
    w.dispatcher.Working? && w.dispatcher.batch != [] && w.dispatcher.published == Some(Sent) && w.dispatcher.batch[0].id == id
  }

  /** A batch holds each message once, and each is still a waiting row. */
  predicate BatchInv(w: World) {
    w.dispatcher.Working? ==>
      && (w.dispatcher.batch == [] ==> w.dispatcher.published.None?)
      && (forall i, j :: 0 <= i < j < |w.dispatcher.batch| ==> w.dispatcher.batch[i].id != w.dispatcher.batch[j].id)
      && (forall i :: 0 <= i < |w.dispatcher.batch| ==>
            var m := w.dispatcher.batch[i];
            m.id in w.table.rows && Waiting(w.table.rows[m.id]) && w.table.rows[m.id].occurredAt == m.occurredAt)
  }

  /** A row sits in the partition of its own day or in the default one, and a
      partition seen empty is so old that no open transaction can still bring
      a row for it. */
  predicate PartitionInv(cfg: Config, w: World) {
    && w.open.Keys !! w.table.rows.Keys
    && (forall id :: id in w.table.rows && w.table.rows[id].home.Daily? ==>
          w.table.rows[id].home.day == DayOf(w.table.rows[id].occurredAt))
    && (w.seenEmpty.Some? ==>
          && cfg.ttl > 0 && EndOfDay(w.seenEmpty.value) + WholeDays(cfg.ttl) + DAY <= w.now
          && forall id :: id in w.table.rows ==> w.table.rows[id].home != Daily(w.seenEmpty.value))
  }

  /** The accounts of one message. Sends are one more than the sends nobody
      recorded, once it is published or about to be; recorded failures are
      its attempts and twenty for each replay. */
  predicate AccountInv(w: World, id: Id) {
    && (w.log[Enqueue(id)] > 0 && id !in w.table.rows ==> w.log[Send(id)] >= 1)
    && w.log[Send(id)] <= 1 + w.log[Unmarked(id)]
    && w.log[Enqueue(id)] <= 1
    && (id in w.open ==> w.log[Enqueue(id)] == 0)
    && (w.log[Enqueue(id)] == 0 ==>
          && id !in w.table.rows && id !in w.firstFailure
          && w.log[Send(id)] == w.log[Unmarked(id)] == w.log[Failure(id)] == w.log[Replay(id)] == 0)
    && (id in w.table.rows ==>
          var r := w.table.rows[id];
          && w.log[Send(id)] == w.log[Unmarked(id)] + (if Published(r) || AwaitsMark(w, id) then 1 else 0)
          && r.attempts <= MAX_ATTEMPTS
          && w.log[Failure(id)] == r.attempts + MAX_ATTEMPTS * w.log[Replay(id)])
  }

  lemma ReplayCount(ids: set<Id>, id: Id)
    ensures ReplayEntries(ids)[Replay(id)] == if id in ids then 1 else 0
    ensures ReplayEntries(ids)[Enqueue(id)] == ReplayEntries(ids)[Send(id)] == 0
    ensures ReplayEntries(ids)[Unmarked(id)] == ReplayEntries(ids)[Failure(id)] == 0
  {
    var entries := set i | i in ids :: Replay(i);
    assert Replay(id) in entries <==> id in ids;
    assert Enqueue(id) !in entries && Send(id) !in entries && Unmarked(id) !in entries && Failure(id) !in entries;
  }

  predicate Inv(cfg: Config, w: World, id: Id) {
    BatchInv(w) && PartitionInv(cfg, w) && AccountInv(w, id)
  }

  lemma ReadKeeps(cfg: Config, w: World, s: Step, id: Id)
    requires s.Read? && Enabled(cfg, w, s) && Inv(cfg, w, id)
    ensures Inv(cfg, Apply(cfg, w, s), id)
  {
    var batch := s.batch;
    assert forall i :: 0 <= i < |batch| ==> Ids(batch)[i] == batch[i].id;
    forall i, j | 0 <= i < j < |batch| ensures batch[i].id != batch[j].id {
      assert Ids(batch)[i] != Ids(batch)[j];
    }
  }

  /** An update of one message leaves every other row, and the day and place
      of its own. */
  lemma DispatchedRow(t: Table, m: Message, turn: Turn)
    requires m.id in t.rows
    ensures var u := Dispatched(t, m.id, m.occurredAt, turn);
            && u.partitions == t.partitions && u.rows.Keys == t.rows.Keys
            && u.rows == t.rows[m.id := u.rows[m.id]]
            && u.rows[m.id].home == t.rows[m.id].home && u.rows[m.id].occurredAt == t.rows[m.id].occurredAt
  {
  }

  lemma RecordKeepsRest(cfg: Config, w: World, written: bool, id: Id)
    requires w.dispatcher.Working? && w.dispatcher.batch != [] && w.dispatcher.published.Some?
    requires Inv(cfg, w, id)
    ensures BatchInv(AfterRecord(w, written)) && PartitionInv(cfg, AfterRecord(w, written))
  {
    var m, rest := w.dispatcher.batch[0], w.dispatcher.batch[1..];
    DispatchedRow(w.table, m, Turn(w.dispatcher.published.value, w.now, written));
    assert forall i :: 0 <= i < |rest| ==> rest[i] == w.dispatcher.batch[i + 1] && rest[i].id != m.id;
  }

  lemma RecordCounts(w: World, written: bool, id: Id)
    requires w.dispatcher.Working? && w.dispatcher.batch != [] && w.dispatcher.published.Some?
    ensures var m, outcome := w.dispatcher.batch[0], w.dispatcher.published.value;
            var log, fails := AfterRecord(w, written).log, written && (outcome.Refused? || outcome.Unsupported?);
            && log[Enqueue(id)] == w.log[Enqueue(id)] && log[Send(id)] == w.log[Send(id)]
            && log[Replay(id)] == w.log[Replay(id)]
            && log[Failure(id)] == w.log[Failure(id)] + (if m.id == id && fails then 1 else 0)
            && log[Unmarked(id)] == w.log[Unmarked(id)] + (if m.id == id && outcome.Sent? && !written then 1 else 0)
  {
  }

  lemma RecordKeepsAccount(w: World, written: bool, id: Id)
    requires w.dispatcher.Working? && w.dispatcher.batch != [] && w.dispatcher.published.Some?
    requires BatchInv(w) && AccountInv(w, id)
    ensures AccountInv(AfterRecord(w, written), id)
  {
    var m := w.dispatcher.batch[0];
    DispatchedRow(w.table, m, Turn(w.dispatcher.published.value, w.now, written));
    RecordCounts(w, written, id);
    assert !AwaitsMark(AfterRecord(w, written), id);
    if m.id == id {
      assert Waiting(w.table.rows[m.id]) && w.table.rows[m.id].occurredAt == m.occurredAt;
    }
  }

  lemma CommitKeeps(cfg: Config, w: World, s: Step, id: Id)
    requires Safe(cfg)
    requires s.Commit? && Enabled(cfg, w, s) && Inv(cfg, w, id)
    ensures Inv(cfg, Apply(cfg, w, s), id)
  {
    var began := w.open[s.id];
    assert DayOf(began) * DAY <= began < EndOfDay(DayOf(began));
  }

  lemma ReplayKeeps(cfg: Config, w: World, id: Id)
    requires Inv(cfg, w, id)
    ensures Inv(cfg, Apply(cfg, w, ReplayDead), id)
  {
    ReplayCount(DeadIds(w.table), id);
  }

  lemma LookKeeps(cfg: Config, w: World, s: Step, id: Id)
    requires s.Look? && Enabled(cfg, w, s) && Inv(cfg, w, id)
    ensures Inv(cfg, Apply(cfg, w, s), id)
  {
    SweptDaysAreOld(s.sweptAt, cfg.ttl, s.k);
  }

  /** The drop finds its partition as empty as the look did. */
  lemma DropTakesNothing(cfg: Config, w: World)
    requires PartitionInv(cfg, w) && w.seenEmpty.Some?
    ensures Apply(cfg, w, Drop).table.rows == w.table.rows
  {
  }

  lemma DropKeeps(cfg: Config, w: World, id: Id)
    requires w.seenEmpty.Some? && Inv(cfg, w, id)
    ensures Inv(cfg, Apply(cfg, w, Drop), id)
  {
    DropTakesNothing(cfg, w);
  }

  lemma PruneKeeps(cfg: Config, w: World, cutoff: int, id: Id)
    requires Inv(cfg, w, id)
    ensures Inv(cfg, Apply(cfg, w, Prune(cutoff)), id)
  {
  }

  lemma EnsureKeeps(cfg: Config, w: World, day: int, id: Id)
    requires Inv(cfg, w, id)
    ensures Inv(cfg, Apply(cfg, w, Ensure(day)), id)
  {
    assert Ensured(w.table, day).rows == w.table.rows;
  }

  lemma PublishKeeps(cfg: Config, w: World, outcome: Outcome, id: Id)
    requires Enabled(cfg, w, Publish(outcome)) && Inv(cfg, w, id)
    ensures Inv(cfg, Apply(cfg, w, Publish(outcome)), id)
  {
  }

  lemma CrashKeeps(cfg: Config, w: World, id: Id)
    requires Inv(cfg, w, id)
    ensures Inv(cfg, AfterCrash(w), id)
  {
  }

  lemma StepKeeps(cfg: Config, w: World, s: Step, id: Id)
    requires Safe(cfg)
    requires Enabled(cfg, w, s) && Inv(cfg, w, id)
    ensures Inv(cfg, Apply(cfg, w, s), id)
  {
    match s
    case Commit(_, _) => CommitKeeps(cfg, w, s, id);
    case Read(_, _) => ReadKeeps(cfg, w, s, id);
    case Publish(outcome) => PublishKeeps(cfg, w, outcome, id);
    case Record(written) => RecordKeepsRest(cfg, w, written, id); RecordKeepsAccount(w, written, id);
    case Crash => CrashKeeps(cfg, w, id);
    case ReplayDead => ReplayKeeps(cfg, w, id);
    case Prune(cutoff) => PruneKeeps(cfg, w, cutoff, id);
    case Ensure(day) => EnsureKeeps(cfg, w, day, id);
    case Look(_, _) => LookKeeps(cfg, w, s, id);
    case Drop => DropKeeps(cfg, w, id);
    case _ =>
  }

  lemma {:induction false} HistoryKeeps(cfg: Config, w: World, steps: seq<Step>, id: Id)
    requires Safe(cfg)
    requires Inv(cfg, w, id) && Possible(cfg, w, steps)
    ensures Inv(cfg, After(cfg, w, steps), id)
    decreases |steps|
  {
    if steps != [] {
      StepKeeps(cfg, w, steps[0], id);
      HistoryKeeps(cfg, Apply(cfg, w, steps[0]), steps[1..], id);
    }
  }

  // ---------- No message is lost ----------

  /** A message that was enqueued is still in the table or has been sent. */
  predicate Accounted(w: World, id: Id) {
    w.log[Enqueue(id)] > 0 ==> id in w.table.rows || w.log[Send(id)] >= 1
  }

  /** Over every interleaving, every message is accounted for. */
  lemma NoMessageIsLost(cfg: Config, now: int, steps: seq<Step>, id: Id)
    requires Safe(cfg) && Possible(cfg, Start(now), steps)
    ensures Accounted(After(cfg, Start(now), steps), id)
  {
    HistoryKeeps(cfg, Start(now), steps, id);
  }

  /** At least once, and at most once more for every send nobody recorded. */
  lemma SendsAreAccountedFor(cfg: Config, now: int, steps: seq<Step>, id: Id)
    requires Safe(cfg) && Possible(cfg, Start(now), steps)
    ensures var w := After(cfg, Start(now), steps);
            && w.log[Send(id)] <= 1 + w.log[Unmarked(id)]
            && (id in w.table.rows && Published(w.table.rows[id]) ==> w.log[Send(id)] == 1 + w.log[Unmarked(id)])
  {
    HistoryKeeps(cfg, Start(now), steps, id);
  }

  /** Attempts never pass the ceiling, and recorded failures are exactly the
      attempts and one whole ceiling for each replay: deferrals, crashes and
      replays neither add a failure nor forgive one. */
  lemma RetriesAreAccountedFor(cfg: Config, now: int, steps: seq<Step>, id: Id)
    requires Safe(cfg) && Possible(cfg, Start(now), steps)
    ensures var w := After(cfg, Start(now), steps);
            id in w.table.rows ==>
              && w.table.rows[id].attempts <= MAX_ATTEMPTS
              && w.log[Failure(id)] == w.table.rows[id].attempts + MAX_ATTEMPTS * w.log[Replay(id)]
  {
    HistoryKeeps(cfg, Start(now), steps, id);
  }

  /** Holding a message never brings it nearer to being given up. */
  lemma DeferralCostsNothing(w: World, until: int, written: bool)
    requires w.dispatcher.Working? && w.dispatcher.batch != [] && w.dispatcher.published == Some(Deferred(until))
    ensures var v := AfterRecord(w, written);
            && v.log == w.log
            && forall id :: id in w.table.rows ==>
                 id in v.table.rows && v.table.rows[id].attempts == w.table.rows[id].attempts
                 && (Dead(v.table.rows[id]) <==> Dead(w.table.rows[id]))
  {
  }

  // ---------- No message is given up in a hurry ----------

  /** Seconds of backoff after the first a failures. */
  function BackoffTotal(a: nat): (secs: nat) {
    if a == 0 then 0 else BackoffTotal(a - 1) + Backoff(a - 1)
  }

  function InBatch(w: World, id: Id): bool {
    w.dispatcher.Working? && exists i :: 0 <= i < |w.dispatcher.batch| && w.dispatcher.batch[i].id == id
  }

  function FirstFailure(w: World, id: Id): Option<int> {
    if id in w.firstFailure then Some(w.firstFailure[id]) else None
  }

  /** The a-th failure comes no sooner than the backoffs before it allow, and
      the next try waits for one more; only a due row is ever in a batch. */
  predicate Patient(r: Row, first: Option<int>, now: int, inBatch: bool) {
    r.attempts > 0 ==>
      && first.Some?
      && first.value + BackoffTotal(r.attempts - 1) * SECOND <= now
      && (first.value + BackoffTotal(r.attempts) * SECOND <= now
          || (first.value + BackoffTotal(r.attempts) * SECOND <= r.nextAttemptAt && !inBatch))
  }

  predicate PatienceInv(w: World, id: Id) {
    id in w.table.rows ==> Patient(w.table.rows[id], FirstFailure(w, id), w.now, InBatch(w, id))
  }

  /** A row that has not failed in this round carries no first failure. */
  predicate FreshInv(w: World, id: Id) {
    id in w.table.rows && w.table.rows[id].attempts == 0 ==> id !in w.firstFailure
  }

  /** A row after its turn. */
  function RowAfter(r: Row, turn: Turn): Row {
    if !turn.written then r
    else
      match turn.outcome
      case Sent => r.(publishedAt := Some(turn.now))
      case Deferred(until) => r.(nextAttemptAt := until)
      case _ => r.(attempts := r.attempts + 1, nextAttemptAt := turn.now + Backoff(r.attempts) * SECOND)
  }

  lemma TurnKeepsPatience(r: Row, first: Option<int>, turn: Turn)
    requires Patient(r, first, turn.now, true) && (r.attempts == 0 ==> first.None?)
    ensures var fails := turn.written && (turn.outcome.Refused? || turn.outcome.Unsupported?);
            var after := if fails && first.None? then Some(turn.now) else first;
            && Patient(RowAfter(r, turn), after, turn.now, false)
            && (RowAfter(r, turn).attempts == 0 ==> after.None?)
  {
    assert BackoffTotal(r.attempts + 1) == BackoffTotal(r.attempts) + Backoff(r.attempts);
  }

  lemma RecordKeepsPatience(w: World, written: bool, id: Id)
    requires w.dispatcher.Working? && w.dispatcher.batch != [] && w.dispatcher.published.Some?
    requires BatchInv(w) && PatienceInv(w, id) && FreshInv(w, id)
    ensures PatienceInv(AfterRecord(w, written), id) && FreshInv(AfterRecord(w, written), id)
  {
    var m, rest := w.dispatcher.batch[0], w.dispatcher.batch[1..];
    var turn := Turn(w.dispatcher.published.value, w.now, written);
    DispatchedRow(w.table, m, turn);
    assert forall i :: 0 <= i < |rest| ==> rest[i] == w.dispatcher.batch[i + 1] && rest[i].id != m.id;
    if id == m.id {
      assert InBatch(w, id);
      assert Dispatched(w.table, id, m.occurredAt, turn).rows[id] == RowAfter(w.table.rows[id], turn);
      TurnKeepsPatience(w.table.rows[id], FirstFailure(w, id), turn);
    } else {
      assert InBatch(AfterRecord(w, written), id) ==> InBatch(w, id);
    }
  }

  lemma ReadKeepsPatience(cfg: Config, w: World, s: Step, id: Id)
    requires s.Read? && Enabled(cfg, w, s) && PatienceInv(w, id)
    ensures PatienceInv(Apply(cfg, w, s), id)
  {
    assert forall i :: 0 <= i < |s.batch| ==> Ids(s.batch)[i] == s.batch[i].id;
  }

  lemma StepKeepsPatience(cfg: Config, w: World, s: Step, id: Id)
    requires Enabled(cfg, w, s) && Inv(cfg, w, id) && PatienceInv(w, id) && FreshInv(w, id)
    ensures PatienceInv(Apply(cfg, w, s), id) && FreshInv(Apply(cfg, w, s), id)
  {
    match s
    case Read(_, _) => ReadKeepsPatience(cfg, w, s, id);
    case Record(written) => RecordKeepsPatience(w, written, id);
    case _ => assert InBatch(Apply(cfg, w, s), id) ==> InBatch(w, id);
  }

  lemma {:induction false} HistoryKeepsPatience(cfg: Config, w: World, steps: seq<Step>, id: Id)
    requires Safe(cfg)
    requires Inv(cfg, w, id) && PatienceInv(w, id) && FreshInv(w, id) && Possible(cfg, w, steps)
    ensures PatienceInv(After(cfg, w, steps), id)
    decreases |steps|
  {
    if steps != [] {
      StepKeeps(cfg, w, steps[0], id);
      StepKeepsPatience(cfg, w, steps[0], id);
      HistoryKeepsPatience(cfg, Apply(cfg, w, steps[0]), steps[1..], id);
    }
  }

  /** Eight doublings from one second, then five minutes eleven times. */
  lemma PatienceOfTwentyTries()
    ensures BackoffTotal(MAX_ATTEMPTS - 1) == 3511
  {
    assert Pow(2, 4) == 16;
    assert Pow(2, 8) == 256;
    assert Pow(2, 12) == 4096;
    assert Pow(2, 16) == 65536;
    assert BackoffTotal(4) == 15;
    assert BackoffTotal(8) == 255;
    assert BackoffTotal(12) == 1411;
    assert BackoffTotal(14) == 2011;
    assert BackoffTotal(16) == 2611;
    assert BackoffTotal(18) == 3211;
  }

  /** A message is given up no sooner than 3511 seconds after the first failure
      of its round, however often the dispatcher runs, crashes or defers. */
  lemma GivenUpSlowly(cfg: Config, now: int, steps: seq<Step>, id: Id)
    requires Safe(cfg) && Possible(cfg, Start(now), steps)
    ensures var w := After(cfg, Start(now), steps);
            id in w.table.rows && Dead(w.table.rows[id]) ==>
              id in w.firstFailure && w.firstFailure[id] + 3511 * SECOND <= w.now
  {
    HistoryKeeps(cfg, Start(now), steps, id);
    HistoryKeepsPatience(cfg, Start(now), steps, id);
    PatienceOfTwentyTries();
  }

  // ---------- Why the limit on transactions is needed ----------

  /** A transaction begun in the last instant of day 0 that commits between the
      look at that day's partition and its drop. */
  function LateCommit(sweep: int): seq<Step> {
    [Ensure(0), Wait(DAY - 1), Begin(7), Wait(sweep), Look(sweep, 1), Commit(7, "t"), Drop]
  }

  /** A step, and a run from where it leads, are a run. */
  lemma RunSplits(cfg: Config, w: World, steps: seq<Step>, end: World)
    requires steps != [] && Enabled(cfg, w, steps[0])
    requires Possible(cfg, Apply(cfg, w, steps[0]), steps[1..]) && After(cfg, Apply(cfg, w, steps[0]), steps[1..]) == end
    ensures Possible(cfg, w, steps) && After(cfg, w, steps) == end
  {
  }

  /** The first sweep that may look at day 0 finds exactly that day. */
  lemma FirstSweep(ttl: int)
    requires ttl > 0
    ensures SweptDay(WholeDays(ttl) + 2 * DAY, ttl, 1) == 0
  {
    var days := (ttl + DAY - 1) / DAY;
    DivIs(WholeDays(ttl) + 2 * DAY, days + 2);
    DivIs((days + 2) * DAY - ttl - DAY - DAY, 0);
  }

  /** The row of the late transaction lands in the partition seen empty and
      goes with it, unsent. */
  lemma LateCommitIsLost(cfg: Config)
    requires !Safe(cfg)
    ensures var steps := LateCommit(WholeDays(cfg.ttl) + 2 * DAY);
            && Possible(cfg, Start(0), steps)
            && !Accounted(After(cfg, Start(0), steps), 7)
  {
    var sweep := WholeDays(cfg.ttl) + 2 * DAY;
    var steps := LateCommit(sweep);
    FirstSweep(cfg.ttl);
    WholeDaysRoundsUp(cfg.ttl);
    DivIs(DAY - 1, 0);
    var w0 := Start(0);
    var w1 := Apply(cfg, w0, steps[0]);
    var w2 := Apply(cfg, w1, steps[1]);
    var w3 := Apply(cfg, w2, steps[2]);
    var w4 := Apply(cfg, w3, steps[3]);
    var w5 := Apply(cfg, w4, steps[4]);
    var w6 := Apply(cfg, w5, steps[5]);
    assert w6.table.rows[7].home == Daily(0) && w6.log[Enqueue(7)] == 1 && w6.log[Send(7)] == 0;
    var w7 := Apply(cfg, w6, steps[6]);
    RunSplits(cfg, w6, steps[6..], w7);
    RunSplits(cfg, w5, steps[5..], w7);
    RunSplits(cfg, w4, steps[4..], w7);
    RunSplits(cfg, w3, steps[3..], w7);
    RunSplits(cfg, w2, steps[2..], w7);
    RunSplits(cfg, w1, steps[1..], w7);
    RunSplits(cfg, w0, steps, w7);
  }

  ghost predicate LosesNothing(cfg: Config) {
    forall now, steps, id :: Possible(cfg, Start(now), steps) ==> Accounted(After(cfg, Start(now), steps), id)
  }

  /** Checking a partition and dropping it in two transactions loses nothing,
      over all histories, exactly when no transaction outlives the retention
      time in whole days and a day. */
  lemma NothingIsLostExactlyWhen(cfg: Config)
    ensures LosesNothing(cfg) <==> Safe(cfg)
  {
    if Safe(cfg) {
      forall now, steps, id | Possible(cfg, Start(now), steps) ensures Accounted(After(cfg, Start(now), steps), id) {
        NoMessageIsLost(cfg, now, steps, id);
      }
    } else {
      LateCommitIsLost(cfg);
      assert !Accounted(After(cfg, Start(0), LateCommit(WholeDays(cfg.ttl) + 2 * DAY)), 7);
    }
  }
}
