/** The table of a chat that follows single teams of a tournament
    (internal/app/tournament_scope.go): the tables of its teams added up, user
    by user and column by column. */
module TournamentScope {
  import opened Wrappers
  import Standings

  type UserId = Standings.UserId
  type Standing = Standings.Standing
  type TeamId = int

  /** One vote on a finished match of the tournament, with what it earned. */
  datatype Vote = Vote(user: UserId, first: TeamId, second: TeamId, points: nat, exact: bool, correct: bool)

  datatype Column = Points | Exact | Correct | Predictions

  function Cell(s: Standing, c: Column): int {
    match c
    case Points => s.points
    case Exact => s.exact
    case Correct => s.correct
    case Predictions => s.predictions
  }

  function Earned(v: Vote, c: Column): nat {
    match c
    case Points => v.points
    case Exact => if v.exact then 1 else 0
    case Correct => if v.correct then 1 else 0
    case Predictions => 1
  }

  predicate Plays(v: Vote, team: TeamId) {
    v.first == team || v.second == team
  }

  // ---------- One team's table ----------

  function TeamTotal(votes: seq<Vote>, c: Column, team: TeamId, user: UserId): nat {
    if votes == [] then 0
    else
      TeamTotal(votes[1..], c, team, user) + if votes[0].user == user && Plays(votes[0], team) then Earned(votes[0], c) else 0
  }

  /** A user has a row in a team's table after voting on one of its matches. */
  function Voters(votes: seq<Vote>, team: TeamId): set<UserId> {
    set v | v in votes && Plays(v, team) :: v.user
  }

  /** The rows a team's leaderboard query returns, in some order. */
  predicate IsLeaderboard(rows: seq<Standing>, votes: seq<Vote>, team: TeamId) {
    && (forall i, j :: 0 <= i < j < |rows| ==> rows[i].user != rows[j].user)
    && (forall user :: user in Voters(votes, team) ==> exists i :: 0 <= i < |rows| && rows[i].user == user)
    && (forall i :: 0 <= i < |rows| ==> rows[i].user in Voters(votes, team))
    && (forall i, c :: 0 <= i < |rows| ==> Cell(rows[i], c) == TeamTotal(votes, c, team, rows[i].user))
  }

  lemma OneRowAtMost(rows: seq<Standing>, user: UserId)
    requires forall i, j :: 0 <= i < j < |rows| ==> rows[i].user != rows[j].user
    ensures (forall i :: 0 <= i < |rows| ==> rows[i].user == user) ==> |rows| <= 1
  {
    if |rows| > 1 {
      assert rows[0].user != rows[1].user;
    }
  }

  /** What one vote puts into a team's table: a row if the team played, and what
      the vote earned in its columns. */
  lemma OneVoteRow(v: Vote, rows: seq<Standing>, team: TeamId)
    requires IsLeaderboard(rows, [v], team)
    ensures |rows| == if v.first == team || v.second == team then 1 else 0
    ensures rows != [] ==>
              && rows[0].user == v.user && rows[0].points == v.points && rows[0].predictions == 1
              && rows[0].exact == (if v.exact then 1 else 0) && rows[0].correct == if v.correct then 1 else 0
  {
    assert v in [v] && Voters([v], team) <= {v.user};
    if v.first == team || v.second == team {
      assert v.user in Voters([v], team);
    }
    OneRowAtMost(rows, v.user);
    if rows != [] {
      var row := rows[0];
      assert row.user in Voters([v], team);
      forall c ensures Cell(row, c) == Earned(v, c) {
        assert [v][1..] == [] && TeamTotal([], c, team, row.user) == 0;
        assert TeamTotal([v], c, team, row.user) == Earned(v, c);
        assert Cell(rows[0], c) == TeamTotal([v], c, team, rows[0].user);
      }
      assert Cell(row, Points) == v.points && Cell(row, Predictions) == 1;
      assert Cell(row, Exact) == (if v.exact then 1 else 0) && Cell(row, Correct) == if v.correct then 1 else 0;
    }
  }

  function RowsValue(rows: seq<Standing>, c: Column, user: UserId): int {
    if rows == [] then 0
    else RowsValue(rows[..|rows| - 1], c, user) + if rows[|rows| - 1].user == user then Cell(rows[|rows| - 1], c) else 0
  }

  function Value(table: map<UserId, Standing>, c: Column, user: UserId): int {
    if user in table then Cell(table[user], c) else 0
  }

  lemma {:induction false} NoVoteNoTotal(votes: seq<Vote>, c: Column, team: TeamId, user: UserId)
    requires user !in Voters(votes, team)
    ensures TeamTotal(votes, c, team, user) == 0
  {
    if votes != [] {
      NoVoteNoTotal(votes[1..], c, team, user);
    }
  }

  lemma {:induction false} NoRowNoValue(rows: seq<Standing>, c: Column, user: UserId)
    requires forall i :: 0 <= i < |rows| ==> rows[i].user != user
    ensures RowsValue(rows, c, user) == 0
  {
    if rows != [] {
      NoRowNoValue(rows[..|rows| - 1], c, user);
    }
  }

  lemma {:induction false} OneRowValue(rows: seq<Standing>, c: Column, i: nat)
    requires i < |rows| && forall j, k :: 0 <= j < k < |rows| ==> rows[j].user != rows[k].user
    ensures RowsValue(rows, c, rows[i].user) == Cell(rows[i], c)
  {
    var front := rows[..|rows| - 1];
    if i < |front| {
      OneRowValue(front, c, i);
    } else {
      NoRowNoValue(front, c, rows[i].user);
    }
  }

  lemma LeaderboardValue(rows: seq<Standing>, votes: seq<Vote>, c: Column, team: TeamId, user: UserId)
    requires IsLeaderboard(rows, votes, team)
    ensures RowsValue(rows, c, user) == TeamTotal(votes, c, team, user)
  {
    if user in Voters(votes, team) {
      var i :| 0 <= i < |rows| && rows[i].user == user;
      OneRowValue(rows, c, i);
    } else {
      NoVoteNoTotal(votes, c, team, user);
      NoRowNoValue(rows, c, user);
    }
  }

  // ---------- Adding the tables up ----------

  /** The teams' tables added, in the order of the keys; a key that is no team
      id is passed over. */
  function AddedUp(votes: seq<Vote>, c: Column, keys: seq<Option<TeamId>>, user: UserId): nat {
    if keys == [] then 0
    else
      var key := keys[|keys| - 1];
      AddedUp(votes, c, keys[..|keys| - 1], user) + if key.Some? then TeamTotal(votes, c, key.value, user) else 0
  }

  method AddRows(table: map<UserId, Standing>, rows: seq<Standing>) returns (added: map<UserId, Standing>)
    ensures forall user, c :: Value(added, c, user) == Value(table, c, user) + RowsValue(rows, c, user)
  {
    added := table;
    for i := 0 to |rows|
      invariant forall user, c :: Value(added, c, user) == Value(table, c, user) + RowsValue(rows[..i], c, user)
    {
      assert rows[..i + 1][..i] == rows[..i];
      var row := rows[i];
      if row.user !in added {
        added := added[row.user := row];
      } else {
        var entry := added[row.user];
        added := added[row.user := entry.(points := entry.points + row.points, exact := entry.exact + row.exact,
                                          correct := entry.correct + row.correct,
                                          predictions := entry.predictions + row.predictions)];
      }
    }
    assert rows[..|rows|] == rows;
  }

  /** boards holds what the query returns for each key. */
  method MergedStandings(ghost votes: seq<Vote>, keys: seq<Option<TeamId>>, boards: seq<seq<Standing>>)
    returns (table: map<UserId, Standing>)
    requires |boards| == |keys|
    requires forall i :: 0 <= i < |keys| && keys[i].Some? ==> IsLeaderboard(boards[i], votes, keys[i].value)
    ensures forall user, c :: Value(table, c, user) == AddedUp(votes, c, keys, user)
  {
    table := map[];
    for i := 0 to |keys|
      invariant forall user, c :: Value(table, c, user) == AddedUp(votes, c, keys[..i], user)
    {
      assert keys[..i + 1][..i] == keys[..i];
      if keys[i].None? {
        continue;
      }
      table := AddRows(table, boards[i]);
      forall user, c ensures Value(table, c, user) == AddedUp(votes, c, keys[..i + 1], user) {
        LeaderboardValue(boards[i], votes, c, keys[i].value, user);
      }
    }
    assert keys[..|keys|] == keys;
  }

  // ---------- What the sum counts ----------

  /** How many of the keys name one of the match's teams. */
  function Weight(v: Vote, keys: seq<Option<TeamId>>): nat {
    if keys == [] then 0
    else
      var key := keys[|keys| - 1];
      Weight(v, keys[..|keys| - 1]) + if key.Some? && Plays(v, key.value) then 1 else 0
  }

  function Weighted(votes: seq<Vote>, c: Column, keys: seq<Option<TeamId>>, user: UserId): nat {
    if votes == [] then 0
    else
      Weighted(votes[1..], c, keys, user) + if votes[0].user == user then Earned(votes[0], c) * Weight(votes[0], keys) else 0
  }

  lemma {:induction false} NoKeysNoWeight(votes: seq<Vote>, c: Column, keys: seq<Option<TeamId>>, user: UserId)
    requires keys == []
    ensures Weighted(votes, c, keys, user) == 0
  {
    if votes != [] {
      NoKeysNoWeight(votes[1..], c, keys, user);
      assert Weight(votes[0], keys) == 0;
    }
  }

  lemma Distribute(a: nat, b: nat, c: nat)
    ensures a * (b + c) == a * b + a * c
  {
  }

  lemma LastKeyWeight(earned: nat, v: Vote, keys: seq<Option<TeamId>>)
    requires keys != []
    ensures var n := |keys| - 1;
            earned * Weight(v, keys) ==
              earned * Weight(v, keys[..n]) + if keys[n].Some? && Plays(v, keys[n].value) then earned else 0
  {
    var n := |keys| - 1;
    var w, more := Weight(v, keys[..n]), if keys[n].Some? && Plays(v, keys[n].value) then 1 else 0;
    assert Weight(v, keys) == w + more;
    Distribute(earned, w, more);
  }

  lemma {:induction false} LastKey(votes: seq<Vote>, c: Column, keys: seq<Option<TeamId>>, user: UserId)
    requires keys != []
    ensures var n := |keys| - 1;
            Weighted(votes, c, keys, user) ==
              Weighted(votes, c, keys[..n], user) + if keys[n].Some? then TeamTotal(votes, c, keys[n].value, user) else 0
  {
    if votes != [] {
      LastKey(votes[1..], c, keys, user);
      LastKeyWeight(Earned(votes[0], c), votes[0], keys);
    }
  }

  /** Each vote counts once for each of the chat's teams in the match. */
  lemma {:induction false} MergeIsWeighted(votes: seq<Vote>, c: Column, keys: seq<Option<TeamId>>, user: UserId)
    ensures AddedUp(votes, c, keys, user) == Weighted(votes, c, keys, user)
  {
    if keys == [] {
      NoKeysNoWeight(votes, c, keys, user);
    } else {
      MergeIsWeighted(votes, c, keys[..|keys| - 1], user);
      LastKey(votes, c, keys, user);
    }
  }

  /** The table the comment on the merge describes: matches that involve any of
      the teams, each once. */
  function EitherTeam(votes: seq<Vote>, c: Column, keys: seq<Option<TeamId>>, user: UserId): nat {
    if votes == [] then 0
    else
      EitherTeam(votes[1..], c, keys, user)
      + if votes[0].user == user && Weight(votes[0], keys) > 0 then Earned(votes[0], c) else 0
  }

  predicate NothingTwice(votes: seq<Vote>, c: Column, keys: seq<Option<TeamId>>, user: UserId) {
    forall i :: 0 <= i < |votes| && votes[i].user == user && Earned(votes[i], c) > 0 ==> Weight(votes[i], keys) <= 1
  }

  lemma WeightAgainstOnce(earned: nat, w: nat)
    ensures earned * w >= if w > 0 then earned else 0
    ensures (earned * w == if w > 0 then earned else 0) <==> (earned > 0 ==> w <= 1)
  {
    if w > 1 && earned > 0 {
      assert earned * w == earned + earned * (w - 1);
    }
  }

  lemma {:induction false} WeightedAgainstEither(votes: seq<Vote>, c: Column, keys: seq<Option<TeamId>>, user: UserId)
    ensures Weighted(votes, c, keys, user) >= EitherTeam(votes, c, keys, user)
    ensures Weighted(votes, c, keys, user) == EitherTeam(votes, c, keys, user) <==> NothingTwice(votes, c, keys, user)
  {
    if votes != [] {
      var rest, v := votes[1..], votes[0];
      WeightedAgainstEither(rest, c, keys, user);
      assert forall i :: 0 <= i < |rest| ==> rest[i] == votes[i + 1];
      assert NothingTwice(votes, c, keys, user) <==>
             NothingTwice(rest, c, keys, user) && (v.user == user && Earned(v, c) > 0 ==> Weight(v, keys) <= 1);
      WeightAgainstOnce(Earned(v, c), Weight(v, keys));
    }
  }

  /** A column of the merged table counts each match involving any of the teams
      once, exactly when the user earned nothing in that column on a match
      between two of them. */
  lemma MergeIsEitherTeamExactlyWhen(votes: seq<Vote>, c: Column, keys: seq<Option<TeamId>>, user: UserId)
    ensures AddedUp(votes, c, keys, user) == EitherTeam(votes, c, keys, user) <==> NothingTwice(votes, c, keys, user)
  {
    MergeIsWeighted(votes, c, keys, user);
    WeightedAgainstEither(votes, c, keys, user);
  }
}
