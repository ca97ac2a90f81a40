/** From the provider's answer to a voter's points: the team order of a match
    (internal/app/sync.go, internal/adapter/pandascore/mapper.go) and the
    settling of its polls (internal/domain/scoring/service.go) put together. */
module PollScoring {
  import opened Wrappers
  import T = TeamOrder
  import S = Settlement

  /** A team's id is derived from its number with the provider; numbers are
      told apart by it, and it is never the id that stands for no team. */
  ghost predicate IsTeamKey(key: int -> S.TeamId) {
    (forall m, n :: key(m) == key(n) ==> m == n) && (forall n :: key(n) != S.NO_TEAM)
  }

  /** A saved match as settlement sees it. */
  function AsSettled(m: T.Match, key: int -> S.TeamId, started: bool, format: S.SeriesFormat): S.Match {
    S.Match(if m.first.Some? then Some(key(m.first.value.id)) else None,
            if m.second.Some? then Some(key(m.second.value.id)) else None,
            if m.score.Some? then Some(S.MatchScore(m.score.value.first, m.score.value.second)) else None,
            m.status.Finished?, started, format)
  }

  /** The provider's result of a match from the side of one of two teams. */
  function ResultFor(f: T.Fetch, first: int, second: int): Option<S.MatchScore> {
    var own, other := T.ResultOf(f.results, first), T.ResultOf(f.results, second);
    if own.Some? && other.Some? then Some(S.MatchScore(own.value, other.value)) else None
  }

  /** The last fetch of a life that was saved. */
  function LastSaved(life: seq<T.Happening>): Option<T.Fetch> {
    if life == [] then None
    else
      var last := life[|life| - 1];
      if last.Fetched? && !T.SameTeamTwice(T.Mapped(last.fetch)) then Some(last.fetch) else LastSaved(life[..|life| - 1])
  }

  /** Whatever fetches and corrections a match has been through, its score is the
      result of the last fetch saved, seen from the side of whichever team comes
      first. */
  lemma {:induction false} SavedResult(start: Option<T.Match>, life: seq<T.Happening>)
    requires LastSaved(life).Some?
    ensures var f, m := LastSaved(life).value, T.After(start, life);
            && m.Some?
            && (m.value.score.Some? ==>
                  && T.BothKnown(m.value)
                  && ResultFor(f, m.value.first.value.id, m.value.second.value.id)
                       == Some(S.MatchScore(m.value.score.value.first, m.value.score.value.second)))
  {
    var n := |life| - 1;
    if life[n].Fetched? && !T.SameTeamTwice(T.Mapped(life[n].fetch)) {
      T.ScoreBelongsToTeam(start, life);
    } else {
      SavedResult(start, life[..n]);
    }
  }

  /** A poll that recorded its teams pays by the provider's own result for
      those teams, after any history of fetches and corrections, in whatever
      order the match stands by then. */
  lemma {:induction false} RecordedPollPaysByResult(start: Option<T.Match>, life: seq<T.Happening>, m: T.Match,
                                                    key: int -> S.TeamId, p: S.Poll, first: int, second: int,
                                                    started: bool, format: S.SeriesFormat, i: nat)
    requires IsTeamKey(key) && first != second && p.firstTeam == key(first) && p.secondTeam == key(second)
    requires T.After(start, life) == Some(m) && m.score.Some? && T.Between(Some(m), first, second)
    requires LastSaved(life).Some? && S.OneVoteEach(p.votes) && i < |p.votes|
    ensures var f, n := LastSaved(life).value, AsSettled(m, key, started, format);
            && ResultFor(f, first, second).Some?
            && S.PaidFor(S.AwardsFor(p, n), p, p.votes[i], ResultFor(f, first, second).value, format)
  {
    var n := AsSettled(m, key, started, format);
    SavedResult(start, life);
    assert S.PlayedBy(n, p);
    S.RealignedToPoll(p, n);
    S.AwardsMeaning(p, n, p.votes, i);
  }

  // ---------- Polls from before polls recorded their teams ----------

  /** Fetches about these two teams, and corrections. */
  predicate Concerns(life: seq<T.Happening>, first: int, second: int) {
    forall i :: 0 <= i < |life| ==> (life[i].Fetched? ==> T.About(life[i].fetch, first, second))
  }

  lemma {:induction false} StaysBetween(made: T.Match, life: seq<T.Happening>, first: int, second: int)
    requires T.InOrder(made, first, second) && Concerns(life, first, second)
    ensures var m := T.After(Some(made), life); m.Some? && (T.BothKnown(m.value) ==> T.Between(m, first, second))
  {
    if life != [] {
      StaysBetween(made, life[..|life| - 1], first, second);
    }
  }

  /** Such a poll is scored in the order the match stands in: by the result as its
      teams are listed if that is the order it was made with, by the mirrored one
      if not. */
  lemma {:induction false} OldPollIsScoredBy(made: T.Match, life: seq<T.Happening>, m: T.Match, first: int, second: int)
    requires T.InOrder(made, first, second) && Concerns(life, first, second)
    requires T.After(Some(made), life) == Some(m) && m.score.Some? && LastSaved(life).Some?
    ensures var f := LastSaved(life).value;
            && ResultFor(f, first, second).Some?
            && var result := ResultFor(f, first, second).value;
               S.MatchScore(m.score.value.first, m.score.value.second)
                 == if T.InOrder(m, first, second) then result else S.Mirror(result)
  {
    SavedResult(Some(made), life);
    StaysBetween(made, life, first, second);
  }

  /** It pays rightly as long as the match stands in the order the poll was made
      with. */
  lemma {:induction false} OldPollPaysByResult(made: T.Match, life: seq<T.Happening>, m: T.Match,
                                               key: int -> S.TeamId, p: S.Poll, first: int, second: int,
                                               started: bool, format: S.SeriesFormat, i: nat)
    requires T.InOrder(made, first, second) && Concerns(life, first, second) && p.firstTeam == S.NO_TEAM
    requires T.After(Some(made), life) == Some(m) && m.score.Some? && LastSaved(life).Some?
    requires T.InOrder(m, first, second) && S.OneVoteEach(p.votes) && i < |p.votes|
    ensures var f, n := LastSaved(life).value, AsSettled(m, key, started, format);
            && ResultFor(f, first, second).Some?
            && S.PaidFor(S.AwardsFor(p, n), p, p.votes[i], ResultFor(f, first, second).value, format)
  {
    OldPollIsScoredBy(made, life, m, first, second);
    S.AwardsMeaning(p, AsSettled(m, key, started, format), p.votes, i);
  }

  /** Once the match stands the other way round, by a correction or after a fetch
      that named fewer than two teams, it pays by the mirrored result. */
  lemma {:induction false} OldPollPaysMirrored(made: T.Match, life: seq<T.Happening>, m: T.Match,
                                               key: int -> S.TeamId, p: S.Poll, first: int, second: int,
                                               started: bool, format: S.SeriesFormat, i: nat)
    requires T.InOrder(made, first, second) && Concerns(life, first, second) && p.firstTeam == S.NO_TEAM
    requires T.After(Some(made), life) == Some(m) && m.score.Some? && LastSaved(life).Some?
    requires !T.InOrder(m, first, second) && S.OneVoteEach(p.votes) && i < |p.votes|
    ensures var f, n := LastSaved(life).value, AsSettled(m, key, started, format);
            && ResultFor(f, first, second).Some?
            && S.PaidFor(S.AwardsFor(p, n), p, p.votes[i], S.Mirror(ResultFor(f, first, second).value), format)
  {
    OldPollIsScoredBy(made, life, m, first, second);
    S.AwardsMeaning(p, AsSettled(m, key, started, format), p.votes, i);
  }

  /** A poll with one voter, who named the very result, the second option. */
  function SureVoter(result: S.MatchScore): S.Poll {
    S.Poll(0, S.NO_TEAM, S.NO_TEAM, [S.PollOption(0, S.Mirror(result)), S.PollOption(1, result)], [S.Vote(7, 1)])
  }

  ghost predicate PaysEveryOldPoll(m: S.Match, result: S.MatchScore, format: S.SeriesFormat)
    requires m.score.Some?
  {
    forall p: S.Poll, i: nat | p.firstTeam == S.NO_TEAM && S.OneVoteEach(p.votes) && i < |p.votes| ::
      S.PaidFor(S.AwardsFor(p, m), p, p.votes[i], result, format)
  }

  /** After any fetches and corrections, every old poll of the match pays by the
      last result saved exactly when the match stands in the order the polls
      were made with, or the result is a draw. */
  lemma {:induction false} OldPollsPayByOrder(made: T.Match, life: seq<T.Happening>, m: T.Match, key: int -> S.TeamId,
                                              first: int, second: int, started: bool, format: S.SeriesFormat)
    requires T.InOrder(made, first, second) && Concerns(life, first, second)
    requires T.After(Some(made), life) == Some(m) && m.score.Some? && LastSaved(life).Some?
    ensures var f := LastSaved(life).value;
            && ResultFor(f, first, second).Some?
            && var result := ResultFor(f, first, second).value;
               (PaysEveryOldPoll(AsSettled(m, key, started, format), result, format) <==>
                  T.InOrder(m, first, second) || result.first == result.second)
  {
    var n := AsSettled(m, key, started, format);
    OldPollIsScoredBy(made, life, m, first, second);
    var result := ResultFor(LastSaved(life).value, first, second).value;
    if T.InOrder(m, first, second) || result.first == result.second {
      forall p: S.Poll, i: nat | p.firstTeam == S.NO_TEAM && S.OneVoteEach(p.votes) && i < |p.votes|
        ensures S.PaidFor(S.AwardsFor(p, n), p, p.votes[i], result, format)
      {
        S.AwardsMeaning(p, n, p.votes, i);
      }
    } else {
      var p := SureVoter(result);
      S.AwardsMeaning(p, n, p.votes, 0);
      assert S.IsChoice(p.options, 1, 1) && p.options[1].score == result;
      assert !S.PaidFor(S.AwardsFor(p, n), p, p.votes[0], result, format);
    }
  }

  predicate KeepsOrder(first: int, second: int, life: seq<T.Happening>) {
    first <= second || T.AllFull(life)
  }

  /** Without corrections that is exactly when it was stored in the order of the
      numbers, or no fetch on the way named fewer than two teams. */
  lemma {:induction false} OldPollsPayExactlyWhen(made: T.Match, life: seq<T.Happening>, m: T.Match, key: int -> S.TeamId,
                                                  first: int, second: int, started: bool, format: S.SeriesFormat)
    requires T.InOrder(made, first, second) && T.AllAbout(life, first, second)
    requires life != [] && T.Full(life[|life| - 1].fetch) && T.After(Some(made), life) == Some(m) && m.score.Some?
    ensures var f := life[|life| - 1].fetch;
            && ResultFor(f, first, second).Some?
            && var result := ResultFor(f, first, second).value;
               (PaysEveryOldPoll(AsSettled(m, key, started, format), result, format) <==>
                  KeepsOrder(first, second, life) || result.first == result.second)
  {
    OldPollsPayByOrder(made, life, m, key, first, second, started, format);
    T.AnchorHoldsExactlyWhen(made, first, second, life);
  }

  /** A correction that goes through makes right exactly what was wrong: unless
      the result is a draw, every old poll pays rightly after it exactly when not
      every one did before. */
  lemma {:induction false} CorrectionTurnsPay(made: T.Match, life: seq<T.Happening>, found: T.Affected,
                                              before: T.Match, after: T.Match, key: int -> S.TeamId,
                                              first: int, second: int, started: bool, format: S.SeriesFormat)
    requires T.InOrder(made, first, second) && Concerns(life, first, second) && LastSaved(life).Some?
    requires T.After(Some(made), life) == Some(before) && T.IsRecorded(before, found)
    requires T.After(Some(made), life + [T.BackfillRun(found)]) == Some(after)
    ensures var f := LastSaved(life).value;
            && after.score.Some? && ResultFor(f, first, second).Some?
            && var result := ResultFor(f, first, second).value;
               (PaysEveryOldPoll(AsSettled(after, key, started, format), result, format) <==>
                  || !PaysEveryOldPoll(AsSettled(before, key, started, format), result, format)
                  || result.first == result.second)
  {
    var longer := life + [T.BackfillRun(found)];
    assert longer[..|longer| - 1] == life;
    OldPollsPayByOrder(made, life, before, key, first, second, started, format);
    OldPollsPayByOrder(made, longer, after, key, first, second, started, format);
    StaysBetween(made, life, first, second);
  }

  /** Two teams stored as 9 and 4; a fetch names only team 4; then 9 beats 4 by
      2:1. The voter who called it is paid nothing. */
  lemma {:induction false} OldPollPaysTheWrongSide(format: S.SeriesFormat, key: int -> S.TeamId)
    ensures var nine, four := T.Team(9, "a"), T.Team(4, "b");
            var made := T.Match(Some(nine), Some(four), None, T.NotStarted);
            var short := T.Fetch([Some(four)], [], "running", false);
            var full := T.Fetch([Some(nine), Some(four)], [T.Result(9, 2), T.Result(4, 1)], "finished", false);
            var m := T.After(Some(made), [T.Fetched(short), T.Fetched(full)]);
            && ResultFor(full, 9, 4) == Some(S.MatchScore(2, 1)) && m.Some? && m.value.score.Some?
            && 7 !in S.AwardsFor(SureVoter(S.MatchScore(2, 1)), AsSettled(m.value, key, true, format))
  {
    var nine, four := T.Team(9, "a"), T.Team(4, "b");
    var made := T.Match(Some(nine), Some(four), None, T.NotStarted);
    var short := T.Fetch([Some(four)], [], "running", false);
    var full := T.Fetch([Some(nine), Some(four)], [T.Result(9, 2), T.Result(4, 1)], "finished", false);
    var life := [T.Fetched(short), T.Fetched(full)];
    assert T.Present(short.opponents[1..], 1) == [] && T.Pair(short) == [four];
    assert full.opponents[1..] == [Some(four)] && T.Present([Some(four)], 1) == [four] && T.Pair(full) == [nine, four];
    assert full.results[..1] == [T.Result(9, 2)] && T.ResultOf(full.results[..1], 9) == Some(2);
    assert life[..1] == [T.Fetched(short)] && life[..1][..0] == [];
    assert T.After(Some(made), life[..1]) == Some(T.Mapped(short));
    assert T.After(Some(made), life) == Some(T.Mapped(full));
    var p := SureVoter(S.MatchScore(2, 1));
    assert S.IsChoice(p.options, 1, 1);
    S.AwardsMeaning(p, AsSettled(T.Mapped(full), key, true, format), p.votes, 0);
  }
}
