/** Settling the polls of a finished match (internal/app/settlement.go): one
    transaction a poll, guarded by the score the poll was last settled with,
    replacing its awards (internal/domain/scoring/service.go,
    internal/adapter/postgres/scoring.go). */
module Settlement {
  import opened Wrappers
  import opened Numerals

  type PollId = nat
  type UserId = int
  type TeamId = int

  /** The team id of a poll saved before polls recorded their team order. */
  const NO_TEAM: TeamId := 0

  datatype SeriesKind = BestOf | FixedMaps | FirstTo
  datatype SeriesFormat = SeriesFormat(kind: SeriesKind, size: nat)
  datatype Winner = FirstWins | SecondWins | Draw
  datatype MatchScore = MatchScore(first: int, second: int)
  datatype Kind = ExactScore | OutcomeOnly
  datatype Prize = Prize(points: nat, kind: Kind)
  datatype Award = Award(user: UserId, prize: Prize)
  datatype PollOption = PollOption(index: int, score: MatchScore)
  datatype Vote = Vote(user: UserId, optionIndex: int)
  datatype Poll = Poll(id: PollId, firstTeam: TeamId, secondTeam: TeamId, options: seq<PollOption>, votes: seq<Vote>)

  /** started: the match has an actual or at least a scheduled start. */
  datatype Match = Match(first: Option<TeamId>, second: Option<TeamId>, score: Option<MatchScore>,
                         finished: bool, started: bool, format: SeriesFormat)

  // ---------- Scores and points ----------

  function Show(s: MatchScore): string {
    FormatInt(s.first, 10) + [':'] + FormatInt(s.second, 10)
  }

  function WinnerOf(s: MatchScore): Winner {
    if s.first > s.second then FirstWins else if s.second > s.first then SecondWins else Draw
  }

  function ExactPoints(f: SeriesFormat): nat {
    if f.kind.BestOf? then f.size / 2 + 1 else f.size
  }

  function Calculate(predicted: MatchScore, actual: MatchScore, format: SeriesFormat): Option<Prize> {
    if predicted == actual then Some(Prize(ExactPoints(format), ExactScore))
    else if WinnerOf(predicted) == WinnerOf(actual) then Some(Prize(1, OutcomeOnly))
    else None
  }

  function Mirror(s: MatchScore): MatchScore {
    MatchScore(s.second, s.first)
  }

  /** The score in the team order the poll was made with. */
  function Realigned(actual: MatchScore, m: Match, p: Poll): MatchScore {
    if p.firstTeam == NO_TEAM || m.first.None? || m.second.None? then actual
    else if p.firstTeam == m.second.value && p.secondTeam == m.first.value then Mirror(actual)
    else actual
  }

  function Predicted(options: seq<PollOption>, index: int): Option<MatchScore> {
    if options == [] then None
    else if options[0].index == index then Some(options[0].score)
    else Predicted(options[1..], index)
  }

  function PrizeOf(p: Poll, m: Match, v: Vote): Option<Prize>
    requires m.score.Some?
  {
    var guess := Predicted(p.options, v.optionIndex);
    if guess.None? then None else Calculate(guess.value, Realigned(m.score.value, m, p), m.format)
  }

  /** The award rows a list of votes earns, by voter. */
  function AwardsFrom(p: Poll, m: Match, votes: seq<Vote>): map<UserId, Prize>
    requires m.score.Some?
  {
    if votes == [] then map[]
    else
      var v := votes[|votes| - 1];
      var rest := AwardsFrom(p, m, votes[..|votes| - 1]);
      var prize := PrizeOf(p, m, v);
      if prize.Some? then rest[v.user := prize.value] else rest
  }

  function AwardsFor(p: Poll, m: Match): map<UserId, Prize>
    requires m.score.Some?
  {
    AwardsFrom(p, m, p.votes)
  }

  predicate OneVoteEach(votes: seq<Vote>) {
    forall i, j :: 0 <= i < j < |votes| ==> votes[i].user != votes[j].user
  }

  lemma {:induction false} NoVoteNoAward(p: Poll, m: Match, votes: seq<Vote>, user: UserId)
    requires m.score.Some? && forall i :: 0 <= i < |votes| ==> votes[i].user != user
    ensures user !in AwardsFrom(p, m, votes)
  {
    if votes != [] {
      NoVoteNoAward(p, m, votes[..|votes| - 1], user);
    }
  }

  /** The k-th option is the first to carry the index. */
  predicate IsChoice(options: seq<PollOption>, index: int, k: int) {
    0 <= k < |options| && options[k].index == index && forall j :: 0 <= j < k ==> options[j].index != index
  }

  lemma FirstChoice(options: seq<PollOption>, index: int)
    requires exists k :: 0 <= k < |options| && options[k].index == index
    ensures exists k :: IsChoice(options, index, k)
  {
    var k: nat :| k < |options| && options[k].index == index;
    while !IsChoice(options, index, k)
      invariant k < |options| && options[k].index == index
      decreases k
    {
      var j: nat :| j < k && options[j].index == index;
      k := j;
    }
  }

  /** A vote predicts the score of the option it names; one that names none
      predicts nothing. */
  lemma {:induction false} PredictedIsChoice(options: seq<PollOption>, index: int)
    ensures forall k :: IsChoice(options, index, k) ==> Predicted(options, index) == Some(options[k].score)
    ensures Predicted(options, index).None? <==> forall k :: 0 <= k < |options| ==> options[k].index != index
  {
    if options != [] {
      PredictedIsChoice(options[1..], index);
      assert forall k :: 0 <= k < |options| - 1 ==> options[1..][k] == options[k + 1];
      forall k | IsChoice(options, index, k) ensures Predicted(options, index) == Some(options[k].score) {
        if k > 0 {
          assert options[0].index != index;
          forall j | 0 <= j < k - 1 ensures options[1..][j].index != index {
            assert options[1..][j] == options[j + 1];
          }
          assert IsChoice(options[1..], index, k - 1);
        }
      }
    }
  }

  /** The same team is ahead in both scores, or none is in either. */
  predicate SameSide(a: MatchScore, b: MatchScore) {
    (a.first > a.second <==> b.first > b.second) && (a.first < a.second <==> b.first < b.second)
  }

  /** A vote is paid for this result: at all when the option it names has the
      right winner, in full when it has the very score, with one point if not. */
  ghost predicate PaidFor(awards: map<UserId, Prize>, p: Poll, v: Vote, result: MatchScore, format: SeriesFormat) {
    && (v.user in awards <==> exists k :: IsChoice(p.options, v.optionIndex, k) && SameSide(p.options[k].score, result))
    && forall k :: v.user in awards && IsChoice(p.options, v.optionIndex, k) ==>
         awards[v.user] ==
           if p.options[k].score == result then Prize(ExactPoints(format), ExactScore) else Prize(1, OutcomeOnly)
  }

  /** The exact score is worth the maps that win the series: more than half of a
      best-of, all the maps of the other formats. */
  lemma ExactPointsAreWins(f: SeriesFormat)
    ensures f.kind.BestOf? ==> 2 * ExactPoints(f) > f.size >= 2 * (ExactPoints(f) - 1)
    ensures !f.kind.BestOf? ==> ExactPoints(f) == f.size
  {
  }

  lemma PrizeIsPay(p: Poll, m: Match, v: Vote, awards: map<UserId, Prize>)
    requires m.score.Some?
    requires var prize := PrizeOf(p, m, v);
             if prize.Some? then v.user in awards && awards[v.user] == prize.value else v.user !in awards
    ensures PaidFor(awards, p, v, Realigned(m.score.value, m, p), m.format)
  {
    PredictedIsChoice(p.options, v.optionIndex);
    if Predicted(p.options, v.optionIndex).Some? {
      FirstChoice(p.options, v.optionIndex);
    }
  }

  /** Each voter is paid for the score in the poll's own team order. */
  lemma {:induction false} AwardsMeaning(p: Poll, m: Match, votes: seq<Vote>, i: nat)
    requires m.score.Some? && OneVoteEach(votes) && i < |votes|
    ensures PaidFor(AwardsFrom(p, m, votes), p, votes[i], Realigned(m.score.value, m, p), m.format)
  {
    var front := votes[..|votes| - 1];
    if i < |front| {
      AwardsMeaning(p, m, front, i);
    } else {
      NoVoteNoAward(p, m, front, votes[i].user);
      PrizeIsPay(p, m, votes[i], AwardsFrom(p, m, votes));
    }
  }

  /** The text kept as a poll's settlement mark tells scores apart. */
  lemma ShowInjective(s: MatchScore, t: MatchScore)
    requires Show(s) == Show(t)
    ensures s == t
  {
    forall u | u == s || u == t ensures Split(Show(u), ':') == [FormatInt(u.first, 10), FormatInt(u.second, 10)] {
      FormatIntFree(u.first, 10, ':');
      FormatIntFree(u.second, 10, ':');
      SplitAt(FormatInt(u.first, 10), ':', FormatInt(u.second, 10));
      SplitFree(FormatInt(u.second, 10), ':');
    }
    FormatIntInjective(s.first, t.first, 10);
    FormatIntInjective(s.second, t.second, 10);
  }

  // ---------- The team order of a match does not matter ----------

  function Swapped(m: Match): Match {
    m.(first := m.second, second := m.first, score := if m.score.Some? then Some(Mirror(m.score.value)) else None)
  }

  predicate PlayedBy(m: Match, p: Poll) {
    && p.firstTeam != NO_TEAM && m.first.Some? && m.second.Some? && m.first != m.second
    && ((p.firstTeam == m.first.value && p.secondTeam == m.second.value)
        || (p.firstTeam == m.second.value && p.secondTeam == m.first.value))
  }

  function ScoreOf(m: Match, team: TeamId): int
    requires m.score.Some? && m.first.Some?
  {
    if team == m.first.value then m.score.value.first else m.score.value.second
  }

  /** What a poll is scored against gives each of its own teams that team's
      score. */
  lemma RealignedToPoll(p: Poll, m: Match)
    requires m.score.Some? && PlayedBy(m, p)
    ensures Realigned(m.score.value, m, p) == MatchScore(ScoreOf(m, p.firstTeam), ScoreOf(m, p.secondTeam))
  {
  }

  /** A poll with no teams on record, or with others than the match now has, is
      scored by the score as it stands. */
  lemma OtherTeamsKeepScore(p: Poll, m: Match)
    requires m.score.Some? && m.first.Some? && m.second.Some? && m.first != m.second && !PlayedBy(m, p)
    ensures Realigned(m.score.value, m, p) == m.score.value
  {
  }

  lemma {:induction false} AwardsIgnoreOrder(p: Poll, m: Match, votes: seq<Vote>)
    requires m.score.Some? && PlayedBy(m, p)
    ensures AwardsFrom(p, Swapped(m), votes) == AwardsFrom(p, m, votes)
  {
    if votes != [] {
      AwardsIgnoreOrder(p, m, votes[..|votes| - 1]);
    }
  }

  /** Two finishes come to the same thing for a poll: the same result from its
      side, and the same points for guessing it. */
  predicate SameOutcome(p: Poll, m: Match, n: Match)
    requires m.score.Some? && n.score.Some?
  {
    && Realigned(m.score.value, m, p) == Realigned(n.score.value, n, p)
    && ExactPoints(m.format) == ExactPoints(n.format)
  }

  ghost predicate PaysAlike(p: Poll, m: Match, n: Match)
    requires m.score.Some? && n.score.Some?
  {
    forall guess ::
      Calculate(guess, Realigned(m.score.value, m, p), m.format) == Calculate(guess, Realigned(n.score.value, n, p), n.format)
  }

  /** Whether every possible guess is paid alike. */
  lemma PaysAlikeExactlyWhen(p: Poll, m: Match, n: Match)
    requires m.score.Some? && n.score.Some?
    ensures PaysAlike(p, m, n) <==> SameOutcome(p, m, n)
  {
    var guess := Realigned(n.score.value, n, p);
    if PaysAlike(p, m, n) {
      assert Calculate(guess, Realigned(m.score.value, m, p), m.format) == Calculate(guess, guess, n.format);
    }
  }

  /** The guard compares the score in the match's own order. Between two
      finishes with the same text, it skips rightly for every possible guess
      exactly when the order is the same or the score a draw, and the exact
      score is worth the same. */
  lemma SkipIsRight(p: Poll, before: Match, now: Match)
    requires PlayedBy(before, p) && PlayedBy(now, p)
    requires before.score.Some? && now.score.Some? && Show(before.score.value) == Show(now.score.value)
    ensures PaysAlike(p, before, now)
       <==> && (before.first == now.first || now.score.value.first == now.score.value.second)
            && ExactPoints(before.format) == ExactPoints(now.format)
  {
    ShowInjective(before.score.value, now.score.value);
    PaysAlikeExactlyWhen(p, before, now);
  }

  // ---------- One call ----------

  datatype ResultMessage = ResultMessage(poll: PollId, score: string)
  datatype Ledger = Ledger(awards: map<PollId, map<UserId, Prize>>, hashes: map<PollId, string>, results: seq<ResultMessage>)

  /** Where a poll's turn breaks off, if it does. */
  datatype Fault = Fine | HashUnread | BeforeAwards | AfterAwards | AfterMessage | AtCommit
  datatype Report = Report(ledger: Ledger, count: nat, ok: bool)

  function Settled(l: Ledger, m: Match, p: Poll): Ledger
    requires m.score.Some?
  {
    var hash := Show(m.score.value);
    Ledger(l.awards[p.id := AwardsFor(p, m)], l.hashes[p.id := hash], l.results + [ResultMessage(p.id, hash)])
  }

  predicate UpToDate(l: Ledger, m: Match, p: Poll)
    requires m.score.Some?
  {
    p.id in l.hashes && l.hashes[p.id] == Show(m.score.value)
  }

  function Plus(r: Report, n: nat): Report {
    Report(r.ledger, r.count + n, r.ok)
  }

  function SettledAll(l: Ledger, m: Match, polls: seq<Poll>, faults: seq<Fault>): Report
    requires |faults| == |polls| && m.score.Some?
    decreases |polls|
  {
    if polls == [] then Report(l, 0, true)
    else if faults[0].HashUnread? then Report(l, 0, false)
    else if UpToDate(l, m, polls[0]) then SettledAll(l, m, polls[1..], faults[1..])
    else if faults[0] != Fine || !m.started then Report(l, 0, false)
    else Plus(SettledAll(Settled(l, m, polls[0]), m, polls[1..], faults[1..]), 1)
  }

  lemma SettledFrom(l: Ledger, m: Match, polls: seq<Poll>, faults: seq<Fault>, i: nat)
    requires |faults| == |polls| && m.score.Some? && i < |polls|
    ensures SettledAll(l, m, polls[i..], faults[i..]) ==
            if faults[i].HashUnread? then Report(l, 0, false)
            else if UpToDate(l, m, polls[i]) then SettledAll(l, m, polls[i + 1..], faults[i + 1..])
            else if faults[i] != Fine || !m.started then Report(l, 0, false)
            else Plus(SettledAll(Settled(l, m, polls[i]), m, polls[i + 1..], faults[i + 1..]), 1)
  {
    assert polls[i..][1..] == polls[i + 1..] && faults[i..][1..] == faults[i + 1..];
  }

  function Called(l: Ledger, m: Match, polls: seq<Poll>, faults: seq<Fault>): Report
    requires |faults| == |polls|
  {
    if m.score.None? || !m.finished then Report(l, 0, true) else SettledAll(l, m, polls, faults)
  }

  /** Rows by voter, a later row for the same voter replacing an earlier one. */
  function Rows(awards: seq<Award>): map<UserId, Prize> {
    if awards == [] then map[]
    else
      var a := awards[|awards| - 1];
      Rows(awards[..|awards| - 1])[a.user := a.prize]
  }

  lemma RowsPush(awards: seq<Award>, a: Award)
    ensures Rows(awards + [a]) == Rows(awards)[a.user := a.prize]
  {
    assert (awards + [a])[..|awards|] == awards;
  }

  lemma AwardsPush(p: Poll, m: Match, i: nat)
    requires m.score.Some? && i < |p.votes|
    ensures var before, prize := AwardsFrom(p, m, p.votes[..i]), PrizeOf(p, m, p.votes[i]);
            AwardsFrom(p, m, p.votes[..i + 1]) == if prize.Some? then before[p.votes[i].user := prize.value] else before
  {
    assert p.votes[..i + 1][..i] == p.votes[..i];
  }

  class ResultSettlement {
    var awards: map<PollId, map<UserId, Prize>>
    var hashes: map<PollId, string>
    var results: seq<ResultMessage>

    constructor ()
      ensures Snapshot() == Ledger(map[], map[], [])
    {
      awards, hashes, results := map[], map[], [];
    }

    function Snapshot(): Ledger
      reads this
    {
      Ledger(awards, hashes, results)
    }

    method Settle(m: Match, polls: seq<Poll>, faults: seq<Fault>) returns (count: nat, ok: bool)
      requires |faults| == |polls|
      modifies this
      ensures Report(Snapshot(), count, ok) == Called(old(Snapshot()), m, polls, faults)
    {
      count, ok := 0, true;
      if m.score.None? || !m.finished {
        return;
      }
      var hash := Show(m.score.value);
      ghost var goal := SettledAll(Snapshot(), m, polls, faults);
      assert polls[0..] == polls && faults[0..] == faults;
      var i := 0;
      while i < |polls|
        invariant 0 <= i <= |polls| && ok
        invariant Plus(SettledAll(Snapshot(), m, polls[i..], faults[i..]), count) == goal
      {
        SettledFrom(Snapshot(), m, polls, faults, i);
        if faults[i].HashUnread? {
          ok := false;
          return;
        }
        if polls[i].id !in hashes || hashes[polls[i].id] != hash {
          ok := RunTransaction(m, polls[i], hash, faults[i]);
          if !ok {
            return;
          }
          count := count + 1;
        }
        i := i + 1;
      }
    }

    /** All of a poll's writes, or none. */
    method RunTransaction(m: Match, p: Poll, hash: string, fault: Fault) returns (ok: bool)
      requires m.score.Some? && hash == Show(m.score.value)
      modifies this
      ensures ok <==> !fault.BeforeAwards? && !fault.AfterAwards? && !fault.AfterMessage? && !fault.AtCommit? && m.started
      ensures Snapshot() == if ok then Settled(old(Snapshot()), m, p) else old(Snapshot())
    {
      var before := Snapshot();
      ok := SettleOne(m, p, hash, fault);
      if !ok || fault.AtCommit? {
        ok := false;
        awards, hashes, results := before.awards, before.hashes, before.results;
      }
    }

    method SettleOne(m: Match, p: Poll, hash: string, fault: Fault) returns (ok: bool)
      requires m.score.Some? && hash == Show(m.score.value)
      modifies this
      ensures ok <==> !fault.BeforeAwards? && !fault.AfterAwards? && !fault.AfterMessage? && m.started
      ensures ok ==> Snapshot() == Settled(old(Snapshot()), m, p)
    {
      ok := false;
      if fault.BeforeAwards? || !m.started {
        return;
      }
      var earned := Score(m, p);
      ReplaceAwards(p.id, earned);
      if fault.AfterAwards? {
        return;
      }
      results := results + [ResultMessage(p.id, hash)];
      if fault.AfterMessage? {
        return;
      }
      hashes := hashes[p.id := hash];
      ok := true;
    }

    method Score(m: Match, p: Poll) returns (earned: seq<Award>)
      requires m.score.Some?
      ensures Rows(earned) == AwardsFor(p, m)
    {
      var actual := Realigned(m.score.value, m, p);
      earned := [];
      var i := 0;
      while i < |p.votes|
        invariant 0 <= i <= |p.votes|
        invariant Rows(earned) == AwardsFrom(p, m, p.votes[..i])
      {
        AwardsPush(p, m, i);
        var guess := Guess(p.options, p.votes[i].optionIndex);
        if guess.Some? {
          var prize := Calculate(guess.value, actual, m.format);
          if prize.Some? {
            RowsPush(earned, Award(p.votes[i].user, prize.value));
            earned := earned + [Award(p.votes[i].user, prize.value)];
          }
        }
        i := i + 1;
      }
      assert p.votes[..i] == p.votes;
    }

    method Guess(options: seq<PollOption>, index: int) returns (score: Option<MatchScore>)
      ensures score == Predicted(options, index)
    {
      score := None;
      for i := 0 to |options|
        invariant Predicted(options, index) == Predicted(options[i..], index)
      {
        assert options[i..][1..] == options[i + 1..];
        if options[i].index == index {
          return Some(options[i].score);
        }
      }
    }

    method ReplaceAwards(poll: PollId, earned: seq<Award>)
      modifies this`awards
      ensures awards == old(awards)[poll := Rows(earned)]
    {
      awards := awards[poll := map[]];
      for i := 0 to |earned|
        invariant awards == old(awards)[poll := Rows(earned[..i])]
      {
        assert earned[..i + 1][..i] == earned[..i];
        awards := awards[poll := awards[poll][earned[i].user := earned[i].prize]];
      }
      assert earned[..|earned|] == earned;
    }
  }

  predicate DistinctPolls(polls: seq<Poll>) {
    forall i, j :: 0 <= i < j < |polls| ==> polls[i].id != polls[j].id
  }

  predicate NotAmong(polls: seq<Poll>, id: PollId) {
    forall i :: 0 <= i < |polls| ==> polls[i].id != id
  }

  predicate SamePoll(l: Ledger, after: Ledger, id: PollId) {
    && (id in l.hashes <==> id in after.hashes) && (id in l.hashes ==> l.hashes[id] == after.hashes[id])
    && (id in l.awards <==> id in after.awards) && (id in l.awards ==> l.awards[id] == after.awards[id])
  }

  function Messages(results: seq<ResultMessage>, id: PollId): nat {
    if results == [] then 0
    else Messages(results[..|results| - 1], id) + if results[|results| - 1].poll == id then 1 else 0
  }

  lemma MessagesPush(results: seq<ResultMessage>, r: ResultMessage, id: PollId)
    ensures Messages(results + [r], id) == Messages(results, id) + if r.poll == id then 1 else 0
  {
    assert (results + [r])[..|results|] == results;
  }

  lemma {:induction false} Untouched(l: Ledger, m: Match, polls: seq<Poll>, faults: seq<Fault>, id: PollId)
    requires |faults| == |polls| && m.score.Some? && NotAmong(polls, id)
    ensures SamePoll(l, SettledAll(l, m, polls, faults).ledger, id)
    ensures Messages(SettledAll(l, m, polls, faults).ledger.results, id) == Messages(l.results, id)
    decreases |polls|
  {
    if polls != [] && !faults[0].HashUnread? {
      if UpToDate(l, m, polls[0]) {
        Untouched(l, m, polls[1..], faults[1..], id);
      } else if faults[0] == Fine && m.started {
        Untouched(Settled(l, m, polls[0]), m, polls[1..], faults[1..], id);
        MessagesPush(l.results, ResultMessage(polls[0].id, Show(m.score.value)), id);
      }
    }
  }

  /** How many polls a call gets through before one fails. */
  function Reached(l: Ledger, m: Match, polls: seq<Poll>, faults: seq<Fault>): (k: nat)
    requires |faults| == |polls| && m.score.Some?
    ensures k <= |polls| && (SettledAll(l, m, polls, faults).ok <==> k == |polls|)
    decreases |polls|
  {
    if polls == [] || faults[0].HashUnread? then 0
    else if UpToDate(l, m, polls[0]) then 1 + Reached(l, m, polls[1..], faults[1..])
    else if faults[0] != Fine || !m.started then 0
    else 1 + Reached(Settled(l, m, polls[0]), m, polls[1..], faults[1..])
  }

  /** A call comes through exactly when every poll's mark can be read, and every
      poll that does not carry the score already is settled without a fault, for
      a match with a start. */
  lemma {:induction false} OkExactlyWhen(l: Ledger, m: Match, polls: seq<Poll>, faults: seq<Fault>)
    requires |faults| == |polls| && m.score.Some? && DistinctPolls(polls)
    ensures SettledAll(l, m, polls, faults).ok <==>
              forall i :: 0 <= i < |polls| ==>
                !faults[i].HashUnread? && (UpToDate(l, m, polls[i]) || (faults[i].Fine? && m.started))
    decreases |polls|
  {
    if polls != [] {
      var next := if UpToDate(l, m, polls[0]) then l else Settled(l, m, polls[0]);
      OkExactlyWhen(next, m, polls[1..], faults[1..]);
      assert forall i :: 1 <= i < |polls| ==> polls[i] == polls[1..][i - 1] && faults[i] == faults[1..][i - 1];
      forall i | 1 <= i < |polls| ensures UpToDate(next, m, polls[i]) <==> UpToDate(l, m, polls[i]) {
        assert polls[0].id != polls[i].id;
      }
    }
  }

  /** The polls a call gets through carry its score. */
  lemma {:induction false} ReachedIsSettled(l: Ledger, m: Match, polls: seq<Poll>, faults: seq<Fault>, i: nat)
    requires |faults| == |polls| && m.score.Some? && DistinctPolls(polls) && i < Reached(l, m, polls, faults)
    ensures UpToDate(SettledAll(l, m, polls, faults).ledger, m, polls[i])
    decreases |polls|
  {
    var next := if UpToDate(l, m, polls[0]) then l else Settled(l, m, polls[0]);
    assert SettledAll(l, m, polls, faults).ledger == SettledAll(next, m, polls[1..], faults[1..]).ledger;
    if i == 0 {
      Untouched(next, m, polls[1..], faults[1..], polls[0].id);
    } else {
      ReachedIsSettled(next, m, polls[1..], faults[1..], i - 1);
    }
  }

  /** The polls from the failing one on, and every other, are as they were. */
  lemma {:induction false} BeyondIsUntouched(l: Ledger, m: Match, polls: seq<Poll>, faults: seq<Fault>, id: PollId)
    requires |faults| == |polls| && m.score.Some?
    requires forall i :: 0 <= i < Reached(l, m, polls, faults) ==> polls[i].id != id
    ensures SamePoll(l, SettledAll(l, m, polls, faults).ledger, id)
    decreases |polls|
  {
    if Reached(l, m, polls, faults) > 0 {
      var next := if UpToDate(l, m, polls[0]) then l else Settled(l, m, polls[0]);
      assert polls[0].id != id;
      assert forall i :: 0 <= i < |polls| - 1 ==> polls[1..][i] == polls[i + 1];
      BeyondIsUntouched(next, m, polls[1..], faults[1..], id);
    }
  }

  lemma {:induction false} UpToDateIsSkipped(l: Ledger, m: Match, polls: seq<Poll>, faults: seq<Fault>)
    requires |faults| == |polls| && m.score.Some?
    requires forall i :: 0 <= i < |polls| ==> UpToDate(l, m, polls[i])
    ensures SettledAll(l, m, polls, faults).ledger == l && SettledAll(l, m, polls, faults).count == 0
  {
    if polls != [] {
      UpToDateIsSkipped(l, m, polls[1..], faults[1..]);
    }
  }

  /** Settling an unchanged score again changes nothing, whatever else fails. */
  lemma RerunIsNoOp(l: Ledger, m: Match, polls: seq<Poll>, faults: seq<Fault>, again: seq<Fault>)
    requires |faults| == |again| == |polls| && DistinctPolls(polls)
    requires Called(l, m, polls, faults).ok
    ensures var after := Called(l, m, polls, faults).ledger;
            Called(after, m, polls, again).ledger == after && Called(after, m, polls, again).count == 0
  {
    if m.score.Some? && m.finished {
      forall i | 0 <= i < |polls| ensures UpToDate(Called(l, m, polls, faults).ledger, m, polls[i]) {
        ReachedIsSettled(l, m, polls, faults, i);
      }
      UpToDateIsSkipped(Called(l, m, polls, faults).ledger, m, polls, again);
    }
  }

  // ---------- Any sequence of calls ----------

  datatype Call = Call(m: Match, faults: seq<Fault>)

  predicate CallsFor(polls: seq<Poll>, calls: seq<Call>) {
    forall i :: 0 <= i < |calls| ==> |calls[i].faults| == |polls|
  }

  function After(polls: seq<Poll>, calls: seq<Call>): Ledger
    requires CallsFor(polls, calls)
  {
    if calls == [] then Ledger(map[], map[], [])
    else
      var last := calls[|calls| - 1];
      Called(After(polls, calls[..|calls| - 1]), last.m, polls, last.faults).ledger
  }

  /** A poll's mark and its awards come from one and the same finish. */
  predicate SettledBy(l: Ledger, p: Poll, m: Match) {
    m.score.Some? && UpToDate(l, m, p) && p.id in l.awards && l.awards[p.id] == AwardsFor(p, m)
  }

  lemma {:induction false} CallSettles(l: Ledger, m: Match, polls: seq<Poll>, faults: seq<Fault>, p: Poll)
    requires |faults| == |polls| && m.score.Some? && DistinctPolls(polls) && p in polls
    ensures var after := SettledAll(l, m, polls, faults).ledger;
            SamePoll(l, after, p.id) || (SettledBy(after, p, m) && !UpToDate(l, m, p) && m.started)
    decreases |polls|
  {
    if faults[0].HashUnread? {
    } else if UpToDate(l, m, polls[0]) {
      if p in polls[1..] {
        CallSettles(l, m, polls[1..], faults[1..], p);
      } else {
        Untouched(l, m, polls[1..], faults[1..], p.id);
      }
    } else if faults[0] == Fine && m.started {
      var next := Settled(l, m, polls[0]);
      if p in polls[1..] {
        CallSettles(next, m, polls[1..], faults[1..], p);
      } else {
        Untouched(next, m, polls[1..], faults[1..], p.id);
      }
    }
  }

  predicate MarkChanged(before: Ledger, after: Ledger, id: PollId) {
    id in after.hashes && (id !in before.hashes || before.hashes[id] != after.hashes[id])
  }

  /** The call that last changed a poll's mark. */
  function Setter(polls: seq<Poll>, calls: seq<Call>, id: PollId): (i: Option<nat>)
    requires CallsFor(polls, calls)
    ensures i.Some? ==> i.value < |calls|
  {
    if calls == [] then None
    else
      var n := |calls| - 1;
      if MarkChanged(After(polls, calls[..n]), After(polls, calls), id) then Some(n) else Setter(polls, calls[..n], id)
  }

  /** Whatever the calls and wherever they broke off, a settled poll's mark and
      awards are both those of the finish that last changed the mark, a match
      that was over and had begun, and an unsettled poll has neither. */
  lemma {:induction false} MarkAndAwardsAgree(polls: seq<Poll>, calls: seq<Call>, p: Poll)
    requires CallsFor(polls, calls) && DistinctPolls(polls) && p in polls
    ensures var l, i := After(polls, calls), Setter(polls, calls, p.id);
            if p.id in l.hashes then
              i.Some? && SettledBy(l, p, calls[i.value].m) && calls[i.value].m.finished && calls[i.value].m.started
            else i.None? && p.id !in l.awards
  {
    if calls != [] {
      var n := |calls| - 1;
      MarkAndAwardsAgree(polls, calls[..n], p);
      if calls[n].m.score.Some? && calls[n].m.finished {
        CallSettles(After(polls, calls[..n]), calls[n].m, polls, calls[n].faults, p);
      }
    }
  }

  lemma {:induction false} SameOutcomeSameAwards(p: Poll, m: Match, n: Match, votes: seq<Vote>)
    requires m.score.Some? && n.score.Some? && SameOutcome(p, m, n)
    ensures AwardsFrom(p, m, votes) == AwardsFrom(p, n, votes)
  {
    if votes != [] {
      SameOutcomeSameAwards(p, m, n, votes[..|votes| - 1]);
    }
  }

  // ---------- Whether the last score wins ----------

  /** The last call has a result and comes through all its polls. */
  predicate ComesThrough(polls: seq<Poll>, calls: seq<Call>)
    requires CallsFor(polls, calls)
  {
    calls != [] &&
    var last := calls[|calls| - 1];
    last.m.score.Some? && last.m.finished && Called(After(polls, calls[..|calls| - 1]), last.m, polls, last.faults).ok
  }

  lemma LastMarkStands(polls: seq<Poll>, calls: seq<Call>, p: Poll)
    requires CallsFor(polls, calls) && DistinctPolls(polls) && p in polls && ComesThrough(polls, calls)
    ensures var l, m, i := After(polls, calls), calls[|calls| - 1].m, Setter(polls, calls, p.id);
            UpToDate(l, m, p) && i.Some? && SettledBy(l, p, calls[i.value].m)
  {
    var n := |calls| - 1;
    var k :| 0 <= k < |polls| && polls[k] == p;
    ReachedIsSettled(After(polls, calls[..n]), calls[n].m, polls, calls[n].faults, k);
    MarkAndAwardsAgree(polls, calls, p);
  }

  /** The same polls, one of them with other choices and votes. */
  function Revoted(polls: seq<Poll>, k: nat, options: seq<PollOption>, votes: seq<Vote>): seq<Poll>
    requires k < |polls|
  {
    polls[k := polls[k].(options := options, votes := votes)]
  }

  predicate SameIds(polls: seq<Poll>, others: seq<Poll>) {
    |polls| == |others| && forall i :: 0 <= i < |polls| ==> polls[i].id == others[i].id
  }

  lemma {:induction false} CallIgnoresVotes(l: Ledger, k: Ledger, m: Match, polls: seq<Poll>, others: seq<Poll>,
                                            faults: seq<Fault>)
    requires |faults| == |polls| && m.score.Some? && SameIds(polls, others) && l.hashes == k.hashes
    ensures var r, q := SettledAll(l, m, polls, faults), SettledAll(k, m, others, faults);
            r.ok == q.ok && r.ledger.hashes == q.ledger.hashes
    decreases |polls|
  {
    if polls != [] {
      assert polls[0].id == others[0].id && SameIds(polls[1..], others[1..]);
      if UpToDate(l, m, polls[0]) {
        CallIgnoresVotes(l, k, m, polls[1..], others[1..], faults[1..]);
      } else {
        CallIgnoresVotes(Settled(l, m, polls[0]), Settled(k, m, others[0]), m, polls[1..], others[1..], faults[1..]);
      }
    }
  }

  lemma {:induction false} MarksIgnoreVotes(polls: seq<Poll>, others: seq<Poll>, calls: seq<Call>, id: PollId)
    requires CallsFor(polls, calls) && SameIds(polls, others)
    ensures After(polls, calls).hashes == After(others, calls).hashes
    ensures Setter(polls, calls, id) == Setter(others, calls, id)
    ensures ComesThrough(polls, calls) <==> ComesThrough(others, calls)
  {
    if calls != [] {
      var n := |calls| - 1;
      MarksIgnoreVotes(polls, others, calls[..n], id);
      if calls[n].m.score.Some? && calls[n].m.finished {
        CallIgnoresVotes(After(polls, calls[..n]), After(others, calls[..n]), calls[n].m, polls, others, calls[n].faults);
      }
    }
  }

  lemma OneVoteAwards(p: Poll, m: Match, v: Vote)
    requires m.score.Some? && p.votes == [v]
    ensures var prize := PrizeOf(p, m, v); AwardsFor(p, m) == if prize.Some? then map[v.user := prize.value] else map[]
  {
    assert p.votes[..0] == [] && AwardsFrom(p, m, p.votes[..0]) == map[];
  }

  /** One vote for the second finish's very result is paid in full by it, so it is
      by the first only if the outcome is the same. */
  lemma ExactVoteTells(p: Poll, m: Match, n: Match)
    requires m.score.Some? && n.score.Some? && p.votes == [Vote(0, 0)]
    requires p.options == [PollOption(0, Realigned(n.score.value, n, p))]
    ensures AwardsFor(p, m) == AwardsFor(p, n) ==> SameOutcome(p, m, n)
  {
    OneVoteAwards(p, m, p.votes[0]);
    OneVoteAwards(p, n, p.votes[0]);
    assert AwardsFor(p, n)[0] == Prize(ExactPoints(n.format), ExactScore);
  }

  /** Whatever the choices and the votes, the poll carries the last call's score
      and exactly its awards. */
  ghost predicate LastWins(polls: seq<Poll>, calls: seq<Call>, k: nat)
    requires CallsFor(polls, calls) && calls != [] && k < |polls|
  {
    forall options, votes ::
      var q := Revoted(polls, k, options, votes);
      SettledBy(After(q, calls), q[k], calls[|calls| - 1].m)
  }

  /** The last score wins exactly when it comes to the same thing, for the poll,
      as the finish that last changed the mark. */
  lemma LastScoreWins(polls: seq<Poll>, calls: seq<Call>, k: nat)
    requires CallsFor(polls, calls) && DistinctPolls(polls) && k < |polls| && ComesThrough(polls, calls)
    ensures var i, m := Setter(polls, calls, polls[k].id), calls[|calls| - 1].m;
            && i.Some? && calls[i.value].m.score.Some?
            && (LastWins(polls, calls, k) <==> SameOutcome(polls[k], calls[i.value].m, m))
  {
    LastMarkStands(polls, calls, polls[k]);
    var i, m := Setter(polls, calls, polls[k].id).value, calls[|calls| - 1].m;
    var n := calls[i].m;
    forall options, votes ensures
      var q := Revoted(polls, k, options, votes);
      UpToDate(After(q, calls), m, q[k]) && SettledBy(After(q, calls), q[k], n)
    {
      var q := Revoted(polls, k, options, votes);
      assert q[k].id == polls[k].id && q[k] in q;
      MarksIgnoreVotes(polls, q, calls, polls[k].id);
      LastMarkStands(q, calls, q[k]);
    }
    if SameOutcome(polls[k], n, m) {
      forall options, votes ensures
        var q := Revoted(polls, k, options, votes);
        SettledBy(After(q, calls), q[k], m)
      {
        var q := Revoted(polls, k, options, votes);
        SameOutcomeSameAwards(q[k], n, m, votes);
      }
    } else {
      var options, votes := [PollOption(0, Realigned(m.score.value, m, polls[k]))], [Vote(0, 0)];
      var q := Revoted(polls, k, options, votes);
      ExactVoteTells(q[k], n, m);
      assert !SettledBy(After(q, calls), q[k], m);
    }
  }

  /** It does not always: 2:1 for team 1, corrected to 1:2 and reported the
      other way round, reads 2:1 again. The second call comes through, and the
      awards stay with those who backed team 1. */
  lemma OrderFlipHidesCorrection()
    ensures var p := Poll(9, 1, 2, [PollOption(0, MatchScore(1, 2)), PollOption(1, MatchScore(2, 1))], [Vote(7, 1)]);
            var won := Match(Some(1), Some(2), Some(MatchScore(2, 1)), true, true, SeriesFormat(BestOf, 3));
            var lost := won.(first := Some(2), second := Some(1));
            var l := After([p], [Call(won, [Fine]), Call(lost, [Fine])]);
            && Called(After([p], [Call(won, [Fine])]), lost, [p], [Fine]).ok
            && 9 in l.awards && 7 in l.awards[9] && 7 !in AwardsFor(p, lost)
  {
    var p := Poll(9, 1, 2, [PollOption(0, MatchScore(1, 2)), PollOption(1, MatchScore(2, 1))], [Vote(7, 1)]);
    var won := Match(Some(1), Some(2), Some(MatchScore(2, 1)), true, true, SeriesFormat(BestOf, 3));
    var lost := won.(first := Some(2), second := Some(1));
    var calls := [Call(won, [Fine]), Call(lost, [Fine])];
    assert calls[..1] == [Call(won, [Fine])] && calls[..1][..0] == [];
    assert IsChoice(p.options, 1, 1);
    assert OneVoteEach(p.votes);
    AwardsMeaning(p, won, p.votes, 0);
    AwardsMeaning(p, lost, p.votes, 0);
    var first := After([p], calls[..1]);
    var settled := Settled(Ledger(map[], map[], []), won, p);
    assert SettledAll(settled, won, [], []).ledger == settled;
    assert [p][1..] == [] && [Fine][1..] == [];
    var empty := Ledger(map[], map[], []);
    assert After([p], calls[..1][..0]) == empty;
    assert !UpToDate(empty, won, p);
    assert SettledAll(empty, won, [p], [Fine]).ledger == settled;
    assert first == settled;
    UpToDateIsSkipped(first, lost, [p], [Fine]);
  }

  // ---------- Messages count changes of the mark ----------

  function MarkChanges(polls: seq<Poll>, calls: seq<Call>, id: PollId): nat
    requires CallsFor(polls, calls)
  {
    if calls == [] then 0
    else
      var before := After(polls, calls[..|calls| - 1]);
      MarkChanges(polls, calls[..|calls| - 1], id) + if MarkChanged(before, After(polls, calls), id) then 1 else 0
  }

  lemma {:induction false} CallSendsOnChange(l: Ledger, m: Match, polls: seq<Poll>, faults: seq<Fault>, id: PollId)
    requires |faults| == |polls| && m.score.Some? && DistinctPolls(polls)
    ensures var after := SettledAll(l, m, polls, faults).ledger;
            Messages(after.results, id) == Messages(l.results, id) + if MarkChanged(l, after, id) then 1 else 0
    decreases |polls|
  {
    if polls != [] && !faults[0].HashUnread? {
      if UpToDate(l, m, polls[0]) {
        CallSendsOnChange(l, m, polls[1..], faults[1..], id);
      } else if faults[0] == Fine && m.started {
        var next := Settled(l, m, polls[0]);
        MessagesPush(l.results, ResultMessage(polls[0].id, Show(m.score.value)), id);
        if id == polls[0].id {
          Untouched(next, m, polls[1..], faults[1..], id);
        } else {
          CallSendsOnChange(next, m, polls[1..], faults[1..], id);
        }
      }
    }
  }

  /** A chat gets one result message for each committed change of its poll's
      score, through any number of calls, corrections and aborts. */
  lemma {:induction false} MessagesAreMarkChanges(polls: seq<Poll>, calls: seq<Call>, id: PollId)
    requires CallsFor(polls, calls) && DistinctPolls(polls)
    ensures Messages(After(polls, calls).results, id) == MarkChanges(polls, calls, id)
  {
    if calls != [] {
      var n := |calls| - 1;
      MessagesAreMarkChanges(polls, calls[..n], id);
      if calls[n].m.score.Some? && calls[n].m.finished {
        CallSendsOnChange(After(polls, calls[..n]), calls[n].m, polls, calls[n].faults, id);
      }
    }
  }

  /** The text of the last message about a poll. */
  function LastMessage(results: seq<ResultMessage>, id: PollId): Option<string> {
    if results == [] then None
    else
      var last := results[|results| - 1];
      if last.poll == id then Some(last.score) else LastMessage(results[..|results| - 1], id)
  }

  predicate TellsMark(l: Ledger, id: PollId) {
    LastMessage(l.results, id) == if id in l.hashes then Some(l.hashes[id]) else None
  }

  lemma {:induction false} CallTellsMark(l: Ledger, m: Match, polls: seq<Poll>, faults: seq<Fault>, id: PollId)
    requires |faults| == |polls| && m.score.Some? && TellsMark(l, id)
    ensures TellsMark(SettledAll(l, m, polls, faults).ledger, id)
    decreases |polls|
  {
    if polls != [] {
      var next := Settled(l, m, polls[0]);
      assert next.results[..|next.results| - 1] == l.results;
      if UpToDate(l, m, polls[0]) {
        CallTellsMark(l, m, polls[1..], faults[1..], id);
      } else {
        CallTellsMark(next, m, polls[1..], faults[1..], id);
      }
    }
  }

  /** The last a chat was told of a match is the score its poll is settled with. */
  lemma {:induction false} LastMessageIsMark(polls: seq<Poll>, calls: seq<Call>, id: PollId)
    requires CallsFor(polls, calls)
    ensures TellsMark(After(polls, calls), id)
  {
    if calls != [] {
      var n := |calls| - 1;
      LastMessageIsMark(polls, calls[..n], id);
      if calls[n].m.score.Some? && calls[n].m.finished {
        CallTellsMark(After(polls, calls[..n]), calls[n].m, polls, calls[n].faults, id);
      }
    }
  }
}
