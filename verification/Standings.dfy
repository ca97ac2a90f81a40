/** Ranking (internal/domain/scoring/scoring.go) and the awards of the year
    (internal/app/digest.go). */
module Standings {
  import opened Wrappers
  import opened Numerals

  type UserId = int

  datatype Standing = Standing(user: UserId, points: int, exact: nat, correct: nat, predictions: nat, rank: int)

  // ---------- Dense rank ----------

  /** The order rows are listed in. */
  predicate Ahead(a: Standing, b: Standing) {
    if a.points != b.points then a.points > b.points
    else if a.exact != b.exact then a.exact > b.exact
    else if a.predictions != b.predictions then a.predictions > b.predictions
    else a.user < b.user
  }

  predicate Listed(rows: seq<Standing>) {
    forall i, j :: 0 <= i < j < |rows| ==> !Ahead(rows[j], rows[i])
  }

  function PointsAbove(rows: seq<Standing>, points: int): set<int> {
    set r | r in rows && r.points > points :: r.points
  }

  /** Rank as the query for the comeback baselines counts it: one more than the
      different points totals above this one. */
  function RankOf(rows: seq<Standing>, points: int): nat {
    1 + |PointsAbove(rows, points)|
  }

  function Insert(row: Standing, rows: seq<Standing>): seq<Standing> {
    if rows == [] then [row]
    else if Ahead(rows[0], row) then [rows[0]] + Insert(row, rows[1..])
    else [row] + rows
  }

  function Sort(rows: seq<Standing>): seq<Standing> {
    if rows == [] then [] else Insert(rows[0], Sort(rows[1..]))
  }

  lemma AheadIsTransitive(a: Standing, b: Standing, c: Standing)
    requires !Ahead(b, a) && !Ahead(c, b)
    ensures !Ahead(c, a)
  {
  }

  lemma {:induction false} InsertAdds(row: Standing, rows: seq<Standing>)
    ensures multiset(Insert(row, rows)) == multiset{row} + multiset(rows)
  {
    if rows != [] && Ahead(rows[0], row) {
      InsertAdds(row, rows[1..]);
      assert rows == [rows[0]] + rows[1..];
    }
  }

  predicate NoneAhead(rows: seq<Standing>, row: Standing) {
    forall i :: 0 <= i < |rows| ==> !Ahead(rows[i], row)
  }

  lemma ListedBehind(row: Standing, rows: seq<Standing>)
    requires Listed(rows) && NoneAhead(rows, row)
    ensures Listed([row] + rows)
  {
  }

  lemma InsertedBehind(front: Standing, row: Standing, rows: seq<Standing>)
    requires NoneAhead(rows, front) && !Ahead(row, front)
    ensures NoneAhead(Insert(row, rows), front)
  {
    var all := Insert(row, rows);
    InsertAdds(row, rows);
    forall i | 0 <= i < |all| ensures !Ahead(all[i], front) {
      assert all[i] in multiset(all);
    }
  }

  lemma {:induction false} InsertKeepsOrder(row: Standing, rows: seq<Standing>)
    requires Listed(rows)
    ensures Listed(Insert(row, rows))
  {
    if rows == [] {
    } else if Ahead(rows[0], row) {
      InsertKeepsOrder(row, rows[1..]);
      assert NoneAhead(rows[1..], rows[0]);
      InsertedBehind(rows[0], row, rows[1..]);
      ListedBehind(rows[0], Insert(row, rows[1..]));
    } else {
      forall i | 0 <= i < |rows| ensures !Ahead(rows[i], row) {
        AheadIsTransitive(row, rows[0], rows[i]);
      }
      ListedBehind(row, rows);
    }
  }

  lemma {:induction false} SortSorts(rows: seq<Standing>)
    ensures multiset(Sort(rows)) == multiset(rows) && Listed(Sort(rows)) && |Sort(rows)| == |rows|
  {
    if rows != [] {
      SortSorts(rows[1..]);
      InsertAdds(rows[0], Sort(rows[1..]));
      InsertKeepsOrder(rows[0], Sort(rows[1..]));
      assert rows == [rows[0]] + rows[1..];
    }
    assert |multiset(Sort(rows))| == |Sort(rows)| && |multiset(rows)| == |rows|;
  }

  /** The order of the list: points, then exact scores, then predictions, each
      falling, then the user's number rising. */
  lemma ListedMeans(rows: seq<Standing>, i: nat, j: nat)
    requires Listed(rows) && i < j < |rows|
    ensures var a, b := rows[i], rows[j];
            && a.points >= b.points
            && (a.points == b.points ==> a.exact >= b.exact)
            && (a.points == b.points && a.exact == b.exact ==> a.predictions >= b.predictions)
            && (a.points == b.points && a.exact == b.exact && a.predictions == b.predictions ==> a.user <= b.user)
  {
    assert !Ahead(rows[j], rows[i]);
  }

  lemma SameRows(rows: seq<Standing>, sorted: seq<Standing>, points: int)
    requires multiset(rows) == multiset(sorted)
    ensures RankOf(rows, points) == RankOf(sorted, points)
  {
    assert forall r :: r in rows <==> r in multiset(rows);
    assert forall r :: r in sorted <==> r in multiset(sorted);
    assert PointsAbove(rows, points) == PointsAbove(sorted, points);
  }

  lemma RankMovesOn(sorted: seq<Standing>, i: nat)
    requires Listed(sorted) && i < |sorted| && (i > 0 ==> sorted[i].points != sorted[i - 1].points)
    ensures RankOf(sorted, sorted[i].points) == if i == 0 then 1 else RankOf(sorted, sorted[i - 1].points) + 1
  {
    var p := sorted[i].points;
    assert forall k :: i <= k < |sorted| ==> sorted[k].points <= p;
    if i == 0 {
      assert PointsAbove(sorted, p) == {};
    } else {
      var q := sorted[i - 1].points;
      assert sorted[i - 1] in sorted;
      assert forall k :: 0 <= k < i ==> sorted[k].points >= q;
      assert PointsAbove(sorted, p) == PointsAbove(sorted, q) + {q};
    }
  }

  /** Sorts, then numbers: the rank moves on when the points change. */
  method DenseRank(rows: seq<Standing>) returns (ranked: seq<Standing>)
    ensures |ranked| == |rows| == |Sort(rows)|
    ensures forall i :: 0 <= i < |rows| ==> ranked[i] == Sort(rows)[i].(rank := RankOf(rows, ranked[i].points))
    ensures Listed(ranked)
  {
    SortSorts(rows);
    var sorted := Sort(rows);
    ranked := [];
    var rank, previous := 0, None;
    for i := 0 to |sorted|
      invariant |ranked| == i
      invariant if i == 0 then rank == 0 && previous == None
                else previous == Some(sorted[i - 1].points) && rank == RankOf(sorted, sorted[i - 1].points)
      invariant forall k :: 0 <= k < i ==> ranked[k] == sorted[k].(rank := RankOf(rows, sorted[k].points))
    {
      if previous.None? || sorted[i].points != previous.value {
        RankMovesOn(sorted, i);
        rank := rank + 1;
        previous := Some(sorted[i].points);
      }
      SameRows(rows, sorted, sorted[i].points);
      ranked := ranked + [sorted[i].(rank := rank)];
    }
  }

  // ---------- Comparing accuracy ----------

  /** Counts, as the leaderboard's 32-bit columns hold them. */
  predicate Counted(r: Standing) {
    r.correct <= r.predictions < 0x8000_0000
  }

  /** Hit rates compared by cross-multiplying in 64 bits. */
  predicate BetterAccuracy(a: Standing, b: Standing) {
    var lhs, rhs := Wrap64(a.correct * b.predictions), Wrap64(b.correct * a.predictions);
    if lhs != rhs then lhs > rhs
    else if a.correct != b.correct then a.correct > b.correct
    else if a.predictions != b.predictions then a.predictions > b.predictions
    else if a.points != b.points then a.points > b.points
    else a.user < b.user
  }

  lemma ProductFits(m: nat, n: nat)
    requires m < 0x8000_0000 && n < 0x8000_0000
    ensures Wrap64(m * n) == m * n
  {
    assert 0 <= m * n <= 0x8000_0000 * 0x8000_0000 by {
      MulMonotone(m, n, 0x8000_0000);
      MulMonotone(0x8000_0000, m, 0x8000_0000);
    }
    WrapIsIdentity(m * n);
  }

  /** A hit rate, nothing predicted counting below everything. */
  function Rate(r: Standing): real
    requires r.correct <= r.predictions
  {
    if r.predictions == 0 then -1.0 else r.correct as real / r.predictions as real
  }

  lemma Scale(x: real, y: real, k: real)
    requires k > 0.0
    ensures x > y <==> x * k > y * k
  {
    if x > y {
      assert (x - y) * k > 0.0;
    } else {
      assert (y - x) * k >= 0.0;
    }
  }

  lemma RateOrder(a: Standing, b: Standing)
    requires Counted(a) && Counted(b) && a.predictions > 0 && b.predictions > 0
    ensures Rate(a) > Rate(b) <==> a.correct * b.predictions > b.correct * a.predictions
  {
    var ap, bp := a.predictions as real, b.predictions as real;
    assert a.correct as real == Rate(a) * ap && b.correct as real == Rate(b) * bp;
    assert (a.correct * b.predictions) as real == Rate(a) * (ap * bp);
    assert (b.correct * a.predictions) as real == Rate(b) * (ap * bp);
    Scale(Rate(a), Rate(b), ap * bp);
  }

  /** What the comparison decides: the hit rate itself, then more hits, more
      predictions, more points, the lesser user. A row without predictions
      comes after every row with some. */
  predicate MoreAccurate(a: Standing, b: Standing)
    requires Counted(a) && Counted(b)
  {
    if Rate(a) != Rate(b) then Rate(a) > Rate(b)
    else if a.correct != b.correct then a.correct > b.correct
    else if a.predictions != b.predictions then a.predictions > b.predictions
    else if a.points != b.points then a.points > b.points
    else a.user < b.user
  }

  lemma BetterIsMoreAccurate(a: Standing, b: Standing)
    requires Counted(a) && Counted(b)
    ensures BetterAccuracy(a, b) <==> MoreAccurate(a, b)
  {
    ProductFits(a.correct, b.predictions);
    ProductFits(b.correct, a.predictions);
    if a.predictions > 0 && b.predictions > 0 {
      RateOrder(a, b);
      RateOrder(b, a);
    } else if a.predictions == 0 {
      assert a.correct * b.predictions == 0 && b.correct * a.predictions == 0;
    } else {
      assert b.predictions == 0 && a.correct * b.predictions == 0 && b.correct * a.predictions == 0;
    }
  }

  /** A strict total order on the rows of different users, those without
      predictions included. */
  lemma BetterIsStrictOrder(a: Standing, b: Standing, c: Standing)
    requires Counted(a) && Counted(b) && Counted(c)
    ensures !BetterAccuracy(a, a)
    ensures a.user != b.user ==> BetterAccuracy(a, b) != BetterAccuracy(b, a)
    ensures BetterAccuracy(a, b) && BetterAccuracy(b, c) ==> BetterAccuracy(a, c)
  {
    BetterIsMoreAccurate(a, b);
    BetterIsMoreAccurate(b, a);
    BetterIsMoreAccurate(b, c);
    BetterIsMoreAccurate(a, c);
  }

  // ---------- The awards of the year ----------

  const SNIPER_MIN_PREDICTIONS := 20

  datatype Nomination = Sniper | Expert | Exact

  predicate Eligible(n: Nomination, r: Standing) {
    match n
    case Sniper => r.predictions >= SNIPER_MIN_PREDICTIONS
    case Expert => r.correct > 0
    case Exact => r.exact > 0
  }

  predicate Beats(n: Nomination, a: Standing, b: Standing) {
    match n
    case Sniper => BetterAccuracy(a, b)
    case Expert => a.correct > b.correct || (a.correct == b.correct && BetterAccuracy(a, b))
    case Exact => a.exact > b.exact || (a.exact == b.exact && BetterAccuracy(a, b))
  }

  lemma BeatsIsStrictOrder(n: Nomination, a: Standing, b: Standing, c: Standing)
    requires Counted(a) && Counted(b) && Counted(c)
    ensures !Beats(n, a, a)
    ensures a.user != b.user ==> Beats(n, a, b) != Beats(n, b, a)
    ensures Beats(n, a, b) && Beats(n, b, c) ==> Beats(n, a, c)
  {
    BetterIsStrictOrder(a, b, c);
  }

  predicate Ledger(rows: seq<Standing>) {
    && (forall i :: 0 <= i < |rows| ==> Counted(rows[i]))
    && (forall i, j :: 0 <= i < j < |rows| ==> rows[i].user != rows[j].user)
  }

  /** The eligible row that beats every other one, if any row is eligible. */
  predicate IsWinner(n: Nomination, rows: seq<Standing>, winner: Option<Standing>) {
    if winner.None? then forall r :: r in rows ==> !Eligible(n, r)
    else winner.value in rows && Eligible(n, winner.value)
         && forall r :: r in rows && Eligible(n, r) && r != winner.value ==> Beats(n, winner.value, r)
  }

  method Winner(n: Nomination, rows: seq<Standing>) returns (winner: Option<Standing>)
    requires Ledger(rows)
    ensures IsWinner(n, rows, winner)
  {
    winner := None;
    for i := 0 to |rows|
      invariant IsWinner(n, rows[..i], winner)
    {
      assert rows[..i + 1] == rows[..i] + [rows[i]];
      if !Eligible(n, rows[i]) {
        continue;
      }
      if winner.None? || Beats(n, rows[i], winner.value) {
        if winner.Some? {
          forall r | r in rows[..i] && Eligible(n, r) ensures Beats(n, rows[i], r) {
            BeatsIsStrictOrder(n, rows[i], winner.value, r);
          }
        }
        winner := Some(rows[i]);
      } else {
        BeatsIsStrictOrder(n, rows[i], winner.value, winner.value);
      }
    }
    assert rows[..|rows|] == rows;
  }

  /** What a winner has over every row that is in question: the sniper, of those
      with twenty predictions, the best hit rate; the expert, of those with a
      hit, the most hits; the exact one, of those with an exact score, the most
      of these. Between equals the comparison of rates decides. */
  lemma WinnerMeans(n: Nomination, rows: seq<Standing>, winner: Option<Standing>, r: Standing)
    requires Ledger(rows) && IsWinner(n, rows, winner) && r in rows
    requires if n.Sniper? then r.predictions >= 20 else if n.Expert? then r.correct > 0 else r.exact > 0
    ensures winner.Some? && winner.value in rows && Counted(winner.value) && Counted(r)
    ensures var w := winner.value;
            && (n.Sniper? ==> w.predictions >= 20 && (w == r || MoreAccurate(w, r)))
            && (n.Expert? ==> w.correct >= r.correct && (w.correct == r.correct ==> w == r || MoreAccurate(w, r)))
            && (n.Exact? ==> w.exact >= r.exact && (w.exact == r.exact ==> w == r || MoreAccurate(w, r)))
  {
    BetterIsMoreAccurate(winner.value, r);
  }

  /** Nobody wins exactly when no row is in question. */
  lemma NobodyWins(n: Nomination, rows: seq<Standing>, winner: Option<Standing>)
    requires Ledger(rows) && IsWinner(n, rows, winner)
    ensures winner.None? <==> forall r :: r in rows ==>
              if n.Sniper? then r.predictions < 20 else if n.Expert? then r.correct == 0 else r.exact == 0
  {
  }

  /** The same rows in any order give the same winner. */
  lemma WinnerIgnoresOrder(n: Nomination, rows: seq<Standing>, others: seq<Standing>, w: Option<Standing>, v: Option<Standing>)
    requires Ledger(rows) && Ledger(others) && multiset(rows) == multiset(others)
    requires IsWinner(n, rows, w) && IsWinner(n, others, v)
    ensures w == v
  {
    assert forall r :: r in rows <==> r in multiset(rows);
    assert forall r :: r in others <==> r in multiset(others);
    if w.Some? && v.Some? && w != v {
      BeatsIsStrictOrder(n, w.value, v.value, w.value);
    }
  }

  // ---------- The comeback ----------

  datatype Baseline = Baseline(user: UserId, rank: int)

  datatype Comeback = Comeback(baseline: Baseline, final: Standing)

  function Climb(c: Comeback): int {
    c.baseline.rank - c.final.rank
  }

  predicate Outclimbs(a: Comeback, b: Comeback) {
    Climb(a) > Climb(b) ||
    (Climb(a) == Climb(b) && (a.final.rank < b.final.rank ||
      (a.final.rank == b.final.rank && a.final.points > b.final.points) ||
      (a.final.rank == b.final.rank && a.final.points == b.final.points && a.final.user < b.final.user)))
  }

  /** The climbs of the year: a baseline and that user's row in the final table,
      with the final rank strictly the better. */
  predicate IsClimb(rows: seq<Standing>, baselines: seq<Baseline>, c: Comeback) {
    c.baseline in baselines && c.final in rows && c.final.user == c.baseline.user && Climb(c) > 0
  }

  ghost predicate IsBestComeback(rows: seq<Standing>, baselines: seq<Baseline>, best: Option<Comeback>) {
    if best.None? then forall c :: !IsClimb(rows, baselines, c)
    else IsClimb(rows, baselines, best.value)
         && forall c :: IsClimb(rows, baselines, c) && c != best.value ==> Outclimbs(best.value, c)
  }

  predicate OneBaselineEach(baselines: seq<Baseline>) {
    forall i, j :: 0 <= i < j < |baselines| ==> baselines[i].user != baselines[j].user
  }

  lemma WithoutClimb(rows: seq<Standing>, before: seq<Baseline>, next: Baseline, best: Option<Comeback>)
    requires IsBestComeback(rows, before, best)
    requires forall d :: !IsClimb(rows, [next], d)
    ensures IsBestComeback(rows, before + [next], best)
  {
    assert forall d :: IsClimb(rows, before + [next], d) <==> IsClimb(rows, before, d) || IsClimb(rows, [next], d);
  }

  lemma WithClimb(rows: seq<Standing>, before: seq<Baseline>, next: Baseline, best: Option<Comeback>, c: Comeback)
    requires OneBaselineEach(before + [next]) && IsBestComeback(rows, before, best)
    requires forall d :: IsClimb(rows, [next], d) <==> d == c
    ensures IsBestComeback(rows, before + [next], if best.None? || Outclimbs(c, best.value) then Some(c) else best)
  {
    assert forall d :: IsClimb(rows, before + [next], d) <==> IsClimb(rows, before, d) || IsClimb(rows, [next], d);
    assert IsClimb(rows, [next], c) && c.baseline == next;
    if best.Some? {
      var i :| 0 <= i < |before| && before[i] == best.value.baseline;
      assert (before + [next])[i].user != (before + [next])[|before|].user;
    }
  }

  method BestComeback(rows: seq<Standing>, baselines: seq<Baseline>) returns (best: Option<Comeback>)
    requires Ledger(rows) && OneBaselineEach(baselines)
    ensures IsBestComeback(rows, baselines, best)
  {
    var finals: map<UserId, Standing> := map[];
    for i := 0 to |rows|
      invariant forall u :: u in finals ==> finals[u] in rows && finals[u].user == u
      invariant forall k :: 0 <= k < i ==> rows[k].user in finals && finals[rows[k].user] == rows[k]
    {
      finals := finals[rows[i].user := rows[i]];
    }
    best := None;
    for i := 0 to |baselines|
      invariant IsBestComeback(rows, baselines[..i], best)
    {
      var next := baselines[i];
      assert baselines[..i + 1] == baselines[..i] + [next];
      if next.user in finals && next.rank - finals[next.user].rank > 0 {
        var c := Comeback(next, finals[next.user]);
        WithClimb(rows, baselines[..i], next, best, c);
        if best.None? || Outclimbs(c, best.value) {
          best := Some(c);
        }
      } else {
        WithoutClimb(rows, baselines[..i], next, best);
      }
    }
    assert baselines[..|baselines|] == baselines;
  }

  /** What the comeback of the year has over every other user that climbed: more
      places; at as many, the better final rank, then the more points, then the
      lesser number. */
  lemma BestComebackMeans(rows: seq<Standing>, baselines: seq<Baseline>, best: Option<Comeback>, b: Baseline, r: Standing)
    requires IsBestComeback(rows, baselines, best)
    requires b in baselines && r in rows && r.user == b.user && b.rank > r.rank
    ensures best.Some?
    ensures var won, places := best.value, best.value.baseline.rank - best.value.final.rank;
            && won.baseline in baselines && won.final in rows && won.final.user == won.baseline.user && places > 0
            && places >= b.rank - r.rank
            && (places == b.rank - r.rank ==> won.final.rank <= r.rank)
            && (places == b.rank - r.rank && won.final.rank == r.rank ==> won.final.points >= r.points)
            && (places == b.rank - r.rank && won.final.rank == r.rank && won.final.points == r.points ==>
                  won.final.user <= r.user)
  {
    assert IsClimb(rows, baselines, Comeback(b, r));
  }

  lemma BestComebackIgnoresOrder(rows: seq<Standing>, baselines: seq<Baseline>, others: seq<Standing>, rest: seq<Baseline>,
                                 b: Option<Comeback>, c: Option<Comeback>)
    requires multiset(rows) == multiset(others) && multiset(baselines) == multiset(rest)
    requires IsBestComeback(rows, baselines, b) && IsBestComeback(others, rest, c)
    ensures b == c
  {
    assert forall r :: r in rows <==> r in multiset(rows);
    assert forall r :: r in others <==> r in multiset(others);
    assert forall r :: r in baselines <==> r in multiset(baselines);
    assert forall r :: r in rest <==> r in multiset(rest);
    assert forall d :: IsClimb(rows, baselines, d) <==> IsClimb(others, rest, d);
  }
}
