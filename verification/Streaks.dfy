/** The longest run of correct calls (internal/adapter/postgres/scoring.go):
    the queries number each vote by the misses up to and including it, group
    the correct votes by user and that number, and take the largest group. */
module Streaks {

  type UserId = int

  /** One vote on a finished match. A user has one vote per poll. */
  datatype Vote = Vote(user: UserId, poll: int, playedAt: int, correct: bool)

  predicate OneVotePerPoll(votes: set<Vote>) {
    forall v, w :: v in votes && w in votes && v.user == w.user && v.poll == w.poll ==> v == w
  }

  /** The order the window goes through one user's votes in. */
  predicate UpTo(v: Vote, w: Vote) {
    v.playedAt < w.playedAt || (v.playedAt == w.playedAt && v.poll <= w.poll)
  }

  // ---------- The query ----------

  function MissesUpTo(votes: set<Vote>, v: Vote): set<Vote> {
    set m | m in votes && m.user == v.user && !m.correct && UpTo(m, v)
  }

  function Group(votes: set<Vote>, v: Vote): nat {
    |MissesUpTo(votes, v)|
  }

  function Run(votes: set<Vote>, user: UserId, group: nat): set<Vote> {
    set v | v in votes && v.user == user && v.correct && Group(votes, v) == group
  }

  /** The row the query returns: a largest run, the least user among those who
      have one as large. */
  ghost predicate IsLongest(votes: set<Vote>, user: UserId, streak: nat) {
    && (exists v :: v in votes && v.correct && v.user == user && |Run(votes, user, Group(votes, v))| == streak)
    && forall w :: w in votes && w.correct ==>
         var size := |Run(votes, w.user, Group(votes, w))|;
         size < streak || (size == streak && user <= w.user)
  }

  // ---------- What a streak is ----------

  /** Correct votes of one user with none of that user's other votes between
      any two of them. */
  predicate IsStreak(votes: set<Vote>, user: UserId, s: set<Vote>) {
    && (forall v :: v in s ==> v in votes && v.user == user && v.correct)
    && (forall a, v, b :: a in s && b in s && v in votes && v.user == user && UpTo(a, v) && UpTo(v, b) ==> v in s)
  }

  predicate Before(v: Vote, w: Vote) {
    v.playedAt < w.playedAt || (v.playedAt == w.playedAt && v.poll < w.poll)
  }

  /** That is: in the order the matches were played, and of the polls' numbers at
      one instant, nothing comes between two of them but more of the streak. */
  lemma StreakInTime(votes: set<Vote>, user: UserId, s: set<Vote>)
    requires OneVotePerPoll(votes)
    ensures IsStreak(votes, user, s) <==>
              && (forall v :: v in s ==> v in votes && v.user == user && v.correct)
              && (forall a, v, b :: a in s && b in s && v in votes && v.user == user && Before(a, v) && Before(v, b) ==> v in s)
  {
    if forall v :: v in s ==> v in votes && v.user == user && v.correct {
      forall a, v | a in s && v in votes && v.user == user
        ensures UpTo(a, v) <==> a == v || Before(a, v)
        ensures UpTo(v, a) <==> v == a || Before(v, a)
      {
      }
    }
  }

  lemma SubsetSize<T>(a: set<T>, b: set<T>)
    requires a <= b
    ensures |a| <= |b| && (|a| == |b| ==> a == b)
  {
    assert b == a + (b - a);
  }

  lemma MissesGrow(votes: set<Vote>, v: Vote, w: Vote)
    requires v.user == w.user && UpTo(v, w)
    ensures MissesUpTo(votes, v) <= MissesUpTo(votes, w)
    ensures Group(votes, v) <= Group(votes, w)
  {
    SubsetSize(MissesUpTo(votes, v), MissesUpTo(votes, w));
  }

  /** A group of the query is a streak. */
  lemma RunIsStreak(votes: set<Vote>, user: UserId, group: nat)
    requires OneVotePerPoll(votes)
    ensures IsStreak(votes, user, Run(votes, user, group))
  {
    var s := Run(votes, user, group);
    forall a, v, b | a in s && b in s && v in votes && v.user == user && UpTo(a, v) && UpTo(v, b) ensures v in s {
      MissesGrow(votes, a, v);
      MissesGrow(votes, v, b);
      SubsetSize(MissesUpTo(votes, a), MissesUpTo(votes, v));
      assert MissesUpTo(votes, a) == MissesUpTo(votes, v);
      assert v in MissesUpTo(votes, v) <==> !v.correct;
      assert v in MissesUpTo(votes, a) ==> v == a;
    }
  }

  /** A streak lies within one group of the query. */
  lemma StreakIsInRun(votes: set<Vote>, user: UserId, s: set<Vote>, v: Vote)
    requires IsStreak(votes, user, s) && v in s
    ensures s <= Run(votes, user, Group(votes, v))
  {
    forall w | w in s ensures w in Run(votes, user, Group(votes, v)) {
      var early, late := if UpTo(v, w) then v else w, if UpTo(v, w) then w else v;
      MissesGrow(votes, early, late);
      forall m | m in MissesUpTo(votes, late) ensures m in MissesUpTo(votes, early) {
        assert UpTo(early, m) ==> m in s;
      }
      assert MissesUpTo(votes, early) == MissesUpTo(votes, late);
    }
  }

  /** The query's answer is the length of that user's longest streak, nobody
      has a longer one, and nobody with a lesser number has one as long. */
  lemma LongestIsLongestStreak(votes: set<Vote>, user: UserId, streak: nat)
    requires OneVotePerPoll(votes) && IsLongest(votes, user, streak)
    ensures exists s :: IsStreak(votes, user, s) && |s| == streak
    ensures forall other, s :: IsStreak(votes, other, s) ==> |s| <= streak && (|s| == streak ==> user <= other)
  {
    var v :| v in votes && v.correct && v.user == user && |Run(votes, user, Group(votes, v))| == streak;
    RunIsStreak(votes, user, Group(votes, v));
    assert v in Run(votes, user, Group(votes, v));
    forall other, s | IsStreak(votes, other, s) ensures |s| <= streak && (|s| == streak ==> user <= other) {
      if w :| w in s {
        StreakIsInRun(votes, other, s, w);
        SubsetSize(s, Run(votes, other, Group(votes, w)));
      }
    }
  }

  lemma {:induction false} Best(votes: set<Vote>, among: set<Vote>) returns (best: Vote)
    requires among != {}
    ensures best in among
    ensures forall w :: w in among ==>
              var size, largest := |Run(votes, w.user, Group(votes, w))|, |Run(votes, best.user, Group(votes, best))|;
              size < largest || (size == largest && best.user <= w.user)
    decreases among
  {
    var v :| v in among;
    if among == {v} {
      best := v;
    } else {
      best := Best(votes, among - {v});
      var size, largest := |Run(votes, v.user, Group(votes, v))|, |Run(votes, best.user, Group(votes, best))|;
      if size > largest || (size == largest && v.user < best.user) {
        best := v;
      }
    }
  }

  /** There is an answer exactly when somebody was right at all, and only one. */
  lemma AnswerExists(votes: set<Vote>)
    ensures (exists user, streak :: IsLongest(votes, user, streak)) <==> exists v :: v in votes && v.correct
  {
    if v :| v in votes && v.correct {
      var right := set w | w in votes && w.correct;
      assert v in right;
      var best := Best(votes, right);
      assert IsLongest(votes, best.user, |Run(votes, best.user, Group(votes, best))|);
    }
  }

  lemma AnswerIsUnique(votes: set<Vote>, user: UserId, streak: nat, other: UserId, length: nat)
    requires IsLongest(votes, user, streak) && IsLongest(votes, other, length)
    ensures user == other && streak == length
  {
    var v :| v in votes && v.correct && v.user == user && |Run(votes, user, Group(votes, v))| == streak;
    var w :| w in votes && w.correct && w.user == other && |Run(votes, other, Group(votes, w))| == length;
  }
}
