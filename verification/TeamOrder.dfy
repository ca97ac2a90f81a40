/** Which team a score belongs to: mapping what the provider reports about one
    match (internal/adapter/pandascore/mapper.go), saving it over what is known
    (internal/app/sync.go), and the one-off correction of old matches
    (cmd/backfill-team-order/main.go). A team is known by the number the
    provider gives it. */
module TeamOrder {
  import opened Wrappers
  import opened Numerals

  type Int64 = n: int | -0x8000_0000_0000_0000 <= n <= 0x7fff_ffff_ffff_ffff

  datatype Team = Team(id: Int64, name: string)
  datatype Score = Score(first: int, second: int)
  datatype Status = NotStarted | Running | Finished | Postponed | Cancelled | Forfeit
  datatype Match = Match(first: Option<Team>, second: Option<Team>, score: Option<Score>, status: Status)

  datatype Result = Result(teamId: Int64, score: int)

  /** One answer of the provider about the match. */
  datatype Fetch = Fetch(opponents: seq<Option<Team>>, results: seq<Result>, status: string, forfeit: bool)

  // ---------- Mapping ----------

  /** The first two opponents that are there. */
  function Present(opponents: seq<Option<Team>>, limit: nat): (teams: seq<Team>)
    ensures |teams| <= limit
  {
    if opponents == [] || limit == 0 then []
    else if opponents[0].None? then Present(opponents[1..], limit)
    else [opponents[0].value] + Present(opponents[1..], limit - 1)
  }

  function Pair(f: Fetch): (teams: seq<Team>)
    ensures |teams| <= 2
  {
    Present(f.opponents, 2)
  }

  predicate Full(f: Fetch) {
    |Pair(f)| == 2
  }

  function Ordered(teams: seq<Team>): (r: seq<Team>)
    ensures |r| == |teams|
  {
    if |teams| == 2 && teams[0].id > teams[1].id then [teams[1], teams[0]] else teams
  }

  /** A later entry for the same team counts. */
  function ResultOf(results: seq<Result>, team: int): Option<int> {
    if results == [] then None
    else
      var last := results[|results| - 1];
      if last.teamId == team then Some(last.score) else ResultOf(results[..|results| - 1], team)
  }

  function Lower(s: string): string {
    seq(|s|, i requires 0 <= i < |s| => if 'A' <= s[i] <= 'Z' then (s[i] as int + 32) as char else s[i])
  }

  function StatusOf(f: Fetch): Status {
    if f.forfeit then Forfeit
    else if Lower(f.status) == "running" then Running
    else if Lower(f.status) == "finished" then Finished
    else if Lower(f.status) == "canceled" || Lower(f.status) == "cancelled" then Cancelled
    else if Lower(f.status) == "postponed" then Postponed
    else NotStarted
  }

  function Mapped(f: Fetch): Match {
    var teams := Ordered(Pair(f));
    var first := if |teams| >= 1 then Some(teams[0]) else None;
    var second := if |teams| >= 2 then Some(teams[1]) else None;
    var score :=
      if first.Some? && second.Some? && f.status == "finished"
         && ResultOf(f.results, first.value.id).Some? && ResultOf(f.results, second.value.id).Some?
      then Some(Score(ResultOf(f.results, first.value.id).value, ResultOf(f.results, second.value.id).value))
      else None;
    Match(first, second, score, StatusOf(f))
  }

  // ---------- What the mapping means ----------

  function Named(opponents: seq<Option<Team>>): nat {
    if opponents == [] then 0
    else Named(opponents[..|opponents| - 1]) + if opponents[|opponents| - 1].Some? then 1 else 0
  }

  lemma {:induction false} NamedFront(opponents: seq<Option<Team>>)
    ensures opponents != [] ==> Named(opponents) == Named(opponents[1..]) + if opponents[0].Some? then 1 else 0
  {
    if |opponents| == 1 {
      assert opponents[..0] == [] && opponents[1..] == [];
    } else if |opponents| > 1 {
      var n := |opponents| - 1;
      NamedFront(opponents[..n]);
      assert opponents[..n][1..] == opponents[1..][..n - 1];
    }
  }

  lemma {:induction false} PresentPush(opponents: seq<Option<Team>>, last: Option<Team>, limit: nat)
    ensures |Present(opponents, limit)| == Min(limit, Named(opponents))
    ensures Present(opponents + [last], limit) ==
              Present(opponents, limit) + if last.Some? && Named(opponents) < limit then [last.value] else []
  {
    NamedFront(opponents);
    if opponents == [] {
      assert [last][1..] == [] && opponents + [last] == [last];
    } else {
      assert (opponents + [last])[1..] == opponents[1..] + [last];
      if limit > 0 {
        PresentPush(opponents[1..], last, if opponents[0].Some? then limit - 1 else limit);
      }
    }
  }

  lemma {:induction false} PresentGrows(opponents: seq<Option<Team>>, k: nat)
    requires k <= |opponents|
    ensures Present(opponents[..k], 2) <= Present(opponents, 2)
    decreases |opponents|
  {
    if k == |opponents| {
      assert opponents[..k] == opponents;
    } else {
      var n := |opponents| - 1;
      PresentGrows(opponents[..n], k);
      PresentPush(opponents[..n], opponents[n], 2);
      assert opponents[..n] + [opponents[n]] == opponents && opponents[..n][..k] == opponents[..k];
    }
  }

  /** The i-th opponent is one of the pair exactly when it is there and fewer than
      two before it are; it stands at its place among those. */
  lemma {:induction false} PairIsFirstTwo(f: Fetch, i: nat)
    requires i < |f.opponents|
    ensures |Pair(f)| == Min(2, Named(f.opponents))
    ensures var before := Named(f.opponents[..i]);
            f.opponents[i].Some? && before < 2 ==> before < |Pair(f)| && Pair(f)[before] == f.opponents[i].value
  {
    PresentPush(f.opponents, None, 2);
    PresentGrows(f.opponents, i + 1);
    PresentPush(f.opponents[..i], f.opponents[i], 2);
    assert f.opponents[..i] + [f.opponents[i]] == f.opponents[..i + 1];
  }

  /** A fetch of two teams gives them in the order of their numbers. */
  lemma MappedIsSorted(f: Fetch)
    ensures Full(f) ==>
              && Mapped(f).first.Some? && Mapped(f).second.Some?
              && Mapped(f).first.value.id <= Mapped(f).second.value.id
              && ([Mapped(f).first.value, Mapped(f).second.value] == Pair(f)
                  || [Mapped(f).second.value, Mapped(f).first.value] == Pair(f))
    ensures !Full(f) ==> Mapped(f).second.None? && Mapped(f).score.None?
  {
  }

  /** A team's result is that of the last entry with its number. */
  lemma {:induction false} ResultIsLastEntry(results: seq<Result>, team: int)
    ensures forall i :: 0 <= i < |results| && results[i].teamId == team
                        && (forall j :: i < j < |results| ==> results[j].teamId != team)
                        ==> ResultOf(results, team) == Some(results[i].score)
    ensures ResultOf(results, team).None? <==> forall i :: 0 <= i < |results| ==> results[i].teamId != team
  {
    if results != [] {
      var n := |results| - 1;
      ResultIsLastEntry(results[..n], team);
      assert forall i :: 0 <= i < n ==> results[..n][i] == results[i];
      forall i | 0 <= i < |results| && results[i].teamId == team
                 && (forall j :: i < j < |results| ==> results[j].teamId != team)
        ensures ResultOf(results, team) == Some(results[i].score)
      {
        if i < n {
          assert results[n].teamId != team && results[..n][i].teamId == team;
        }
      }
    }
  }

  /** The word, in letters of either case. */
  predicate Spells(s: string, word: string) {
    && |s| == |word|
    && forall i :: 0 <= i < |s| ==> s[i] == word[i] || ('a' <= word[i] <= 'z' && s[i] as int == word[i] as int - 32)
  }

  lemma LowerSpells(s: string, word: string)
    requires forall i :: 0 <= i < |word| ==> 'a' <= word[i] <= 'z'
    ensures Lower(s) == word <==> Spells(s, word)
  {
    if Spells(s, word) {
      assert forall i :: 0 <= i < |s| ==> Lower(s)[i] == word[i];
    }
    if Lower(s) == word {
      assert forall i :: 0 <= i < |s| ==> Lower(s)[i] == word[i];
    }
  }

  lemma StatusWords(s: string)
    ensures Lower(s) == "running" <==> Spells(s, "running")
    ensures Lower(s) == "finished" <==> Spells(s, "finished")
    ensures Lower(s) == "canceled" <==> Spells(s, "canceled")
    ensures Lower(s) == "cancelled" <==> Spells(s, "cancelled")
    ensures Lower(s) == "postponed" <==> Spells(s, "postponed")
  {
    LowerSpells(s, "running");
    LowerSpells(s, "finished");
    LowerSpells(s, "canceled");
    LowerSpells(s, "cancelled");
    LowerSpells(s, "postponed");
  }

  /** Which status a fetch stands for: a forfeit whatever the text says, else
      what the text spells, else not started. */
  lemma StatusMeans(f: Fetch)
    ensures StatusOf(f).Forfeit? <==> f.forfeit
    ensures StatusOf(f).Running? <==> !f.forfeit && Spells(f.status, "running")
    ensures StatusOf(f).Finished? <==> !f.forfeit && Spells(f.status, "finished")
    ensures StatusOf(f).Cancelled? <==> !f.forfeit && (Spells(f.status, "canceled") || Spells(f.status, "cancelled"))
    ensures StatusOf(f).Postponed? <==> !f.forfeit && Spells(f.status, "postponed")
  {
    StatusWords(f.status);
    assert "finished"[0] != "canceled"[0] && "cancelled"[0] != "postponed"[0];
  }

  method MapMatch(f: Fetch) returns (m: Match)
    ensures m == Mapped(f)
  {
    var opponents: seq<Team> := [];
    var i := 0;
    while i < |f.opponents| && |opponents| < 2
      invariant 0 <= i <= |f.opponents| && |opponents| <= 2
      invariant opponents + Present(f.opponents[i..], 2 - |opponents|) == Pair(f)
    {
      assert f.opponents[i..][1..] == f.opponents[i + 1..];
      if f.opponents[i].Some? {
        opponents := opponents + [f.opponents[i].value];
      }
      i := i + 1;
    }
    if |opponents| == 2 && opponents[0].id > opponents[1].id {
      opponents := [opponents[1], opponents[0]];
    }
    var first := if |opponents| >= 1 then Some(opponents[0]) else None;
    var second := if |opponents| >= 2 then Some(opponents[1]) else None;

    var results: map<int, int> := map[];
    for k := 0 to |f.results|
      invariant forall team :: team in results <==> ResultOf(f.results[..k], team).Some?
      invariant forall team :: team in results ==> ResultOf(f.results[..k], team) == Some(results[team])
    {
      assert f.results[..k + 1][..k] == f.results[..k];
      results := results[f.results[k].teamId := f.results[k].score];
    }
    assert f.results[..|f.results|] == f.results;

    var score := None;
    if first.Some? && second.Some? && f.status == "finished" {
      ParseFormatInt(first.value.id, 10);
      ParseFormatInt(second.value.id, 10);
      var firstId := ParseInt(FormatInt(first.value.id, 10), 10);
      var secondId := ParseInt(FormatInt(second.value.id, 10), 10);
      if firstId.Some? && secondId.Some? && firstId.value in results && secondId.value in results {
        score := Some(Score(results[firstId.value], results[secondId.value]));
      }
    }
    m := Match(first, second, score, StatusOf(f));
  }

  /** The order the provider lists two teams in makes no difference, unless it
      gives one number to two different teams. */
  lemma MappingIgnoresOrder(f: Fetch, g: Fetch)
    requires Full(f) && Full(g) && Pair(g) == [Pair(f)[1], Pair(f)[0]]
    requires g.results == f.results && g.status == f.status && g.forfeit == f.forfeit
    ensures Mapped(g) == Mapped(f) <==> Pair(f)[0].id != Pair(f)[1].id || Pair(f)[0] == Pair(f)[1]
  {
  }

  predicate SidesScored(m: Match, f: Fetch) {
    m.score.Some? ==>
      && m.first.Some? && m.second.Some?
      && ResultOf(f.results, m.first.value.id) == Some(m.score.value.first)
      && ResultOf(f.results, m.second.value.id) == Some(m.score.value.second)
  }

  /** A match can be settled exactly when it was not forfeited, its status is
      spelled in lower case, and both teams have a result. */
  lemma SettledExactlyWhen(f: Fetch)
    ensures Mapped(f).status.Finished? && Mapped(f).score.Some?
       <==> && !f.forfeit && f.status == "finished" && Full(f)
            && ResultOf(f.results, Pair(f)[0].id).Some? && ResultOf(f.results, Pair(f)[1].id).Some?
    ensures SidesScored(Mapped(f), f)
  {
    assert Lower("finished") == "finished";
    assert "running"[0] != "finished"[0];
  }

  // ---------- Saving ----------

  function SwapSides(m: Match): Match {
    m.(first := m.second, second := m.first,
       score := if m.score.Some? then Some(Score(m.score.value.second, m.score.value.first)) else None)
  }

  predicate BothKnown(m: Match) {
    m.first.Some? && m.second.Some?
  }

  predicate OppositeOrder(m: Match, n: Match)
    requires BothKnown(m) && BothKnown(n)
  {
    m.first.value.id == n.second.value.id && m.second.value.id == n.first.value.id
  }

  function Reconciled(previous: Option<Match>, incoming: Match): Match {
    if previous.None? || !BothKnown(previous.value) || !BothKnown(incoming) then incoming
    else if !OppositeOrder(previous.value, incoming) then incoming
    else SwapSides(incoming)
  }

  /** The table holds a team once per match. */
  predicate SameTeamTwice(m: Match) {
    BothKnown(m) && m.first.value.id == m.second.value.id
  }

  /** What is known after a fetch; a save that breaks the rule fails. */
  function Processed(previous: Option<Match>, f: Fetch): Option<Match> {
    if SameTeamTwice(Mapped(f)) then previous else Some(Reconciled(previous, Mapped(f)))
  }

  function Find<K, V>(m: map<K, V>, k: K): Option<V> {
    if k in m then Some(m[k]) else None
  }

  type MatchId = nat
  type EventId = nat

  /** What the investigation of an old match found. */
  datatype Affected = Affected(id: MatchId, event: EventId, firstName: string, firstScore: int,
                               secondName: string, secondScore: int)

  /** Where a run of the correction ends early: an entry whose match cannot be
      read, or one whose match is saved but then not settled. */
  datatype Trouble = NoTrouble | Unread(at: nat) | Unfinished(at: nat)

  predicate IsRecorded(m: Match, a: Affected) {
    && BothKnown(m) && m.score.Some?
    && m.first.value.name == a.firstName && m.second.value.name == a.secondName
    && m.score.value == Score(a.firstScore, a.secondScore)
  }

  function Corrected(m: Match, a: Affected): Match {
    if IsRecorded(m, a) then SwapSides(m) else m
  }

  function CorrectedAll(matches: map<MatchId, Match>, list: seq<Affected>): map<MatchId, Match> {
    if list == [] then matches
    else
      var before := CorrectedAll(matches, list[..|list| - 1]);
      var a := list[|list| - 1];
      if a.id in before then before[a.id := Corrected(before[a.id], a)] else before
  }

  /** The correction turns a match round exactly when it is as it was found: both
      names and both scores. */
  lemma CorrectedExactlyWhen(m: Match, a: Affected)
    ensures m.first.Some? && m.second.Some? && m.score.Some?
            && m.first.value.name == a.firstName && m.second.value.name == a.secondName
            && m.score.value.first == a.firstScore && m.score.value.second == a.secondScore
            ==> Corrected(m, a) == Match(m.second, m.first, Some(Score(a.secondScore, a.firstScore)), m.status)
    ensures m.first.None? || m.second.None? || m.score.None?
            || m.first.value.name != a.firstName || m.second.value.name != a.secondName
            || m.score.value.first != a.firstScore || m.score.value.second != a.secondScore
            ==> Corrected(m, a) == m
  {
  }

  /** Each match on the list is corrected on its own, whatever the others come
      to; a match that is not on it stays as it is. */
  lemma {:induction false} EachEntryOnItsOwn(matches: map<MatchId, Match>, list: seq<Affected>, id: MatchId)
    requires forall i, j :: 0 <= i < j < |list| ==> list[i].id != list[j].id
    ensures CorrectedAll(matches, list).Keys == matches.Keys
    ensures id in matches ==>
              && (forall i :: 0 <= i < |list| && list[i].id == id ==>
                    CorrectedAll(matches, list)[id] == Corrected(matches[id], list[i]))
              && ((forall i :: 0 <= i < |list| ==> list[i].id != id) ==> CorrectedAll(matches, list)[id] == matches[id])
  {
    if list != [] {
      EachEntryOnItsOwn(matches, list[..|list| - 1], id);
    }
  }

  /** The run, if it gets there, finds the i-th entry as recorded. */
  predicate Turns(matches: map<MatchId, Match>, list: seq<Affected>, i: nat)
    requires i < |list|
  {
    var before := CorrectedAll(matches, list[..i]);
    list[i].id in before && IsRecorded(before[list[i].id], list[i])
  }

  class Catalog {
    var matches: map<MatchId, Match>

    constructor ()
      ensures matches == map[]
    {
      matches := map[];
    }

    method ProcessMatch(id: MatchId, f: Fetch) returns (ok: bool)
      modifies this
      ensures ok <==> !SameTeamTwice(Mapped(f))
      ensures Find(matches, id) == Processed(Find(old(matches), id), f)
      ensures matches == if ok then old(matches)[id := matches[id]] else old(matches)
    {
      var incoming := MapMatch(f);
      var previous := Find(matches, id);
      if previous.Some? && BothKnown(previous.value) && BothKnown(incoming) {
        if previous.value.first.value.id == incoming.second.value.id
           && previous.value.second.value.id == incoming.first.value.id {
          incoming := incoming.(first := incoming.second, second := incoming.first);
          if incoming.score.Some? {
            incoming := incoming.(score := Some(Score(incoming.score.value.second, incoming.score.value.first)));
          }
        }
      }
      if SameTeamTwice(incoming) {
        return false;
      }
      matches := matches[id := incoming];
      ok := true;
    }

    /** Goes through the list up to the entry it fails at, if any; a dry run
        changes nothing. events holds the events that still exist, done says how
        many entries were dealt with. */
    method Backfill(list: seq<Affected>, apply: bool, events: set<EventId>, trouble: Trouble)
      returns (touched: set<EventId>, done: nat)
      modifies this
      ensures done <= |list|
      ensures matches == if apply then CorrectedAll(old(matches), list[..done]) else old(matches)
      ensures trouble.NoTrouble? ==> done == |list|
      ensures trouble.Unread? ==> done == if trouble.at < |list| then trouble.at else |list|
      ensures trouble.Unfinished? ==> done == |list| || (apply && done == trouble.at + 1)
      ensures forall e :: e in touched <==>
                apply && e in events
                && exists i :: 0 <= i < done && list[i].event == e && trouble != Unfinished(i) && Turns(old(matches), list, i)
    {
      touched, done := {}, 0;
      while done < |list|
        invariant done <= |list|
        invariant matches == if apply then CorrectedAll(old(matches), list[..done]) else old(matches)
        invariant trouble.Unread? ==> done <= trouble.at
        invariant forall e :: e in touched <==>
                    apply && e in events
                    && exists i :: 0 <= i < done && list[i].event == e && trouble != Unfinished(i) && Turns(old(matches), list, i)
      {
        assert list[..done + 1][..done] == list[..done];
        var a := list[done];
        if trouble == Unread(done) {
          return;
        }
        if a.id in matches && IsRecorded(matches[a.id], a) && apply {
          matches := matches[a.id := SwapSides(matches[a.id])];
          if trouble == Unfinished(done) {
            done := done + 1;
            return;
          }
          if a.event in events {
            touched := touched + {a.event};
          }
        }
        done := done + 1;
      }
    }
  }

  // ---------- The life of one match ----------

  datatype Happening = Fetched(fetch: Fetch) | BackfillRun(found: Affected)

  function Next(m: Option<Match>, h: Happening): Option<Match> {
    match h
    case Fetched(f) => Processed(m, f)
    case BackfillRun(a) => if m.None? then None else Some(Corrected(m.value, a))
  }

  function After(start: Option<Match>, life: seq<Happening>): Option<Match> {
    if life == [] then start else Next(After(start, life[..|life| - 1]), life[|life| - 1])
  }

  predicate OnlyFetches(life: seq<Happening>) {
    forall i :: 0 <= i < |life| ==> life[i].Fetched?
  }

  /** Whatever went before, what a fetch saves gives each team that team's own
      result, and is settled as the fetch says. */
  lemma ScoreBelongsToTeam(start: Option<Match>, life: seq<Happening>)
    requires life != [] && life[|life| - 1].Fetched? && !SameTeamTwice(Mapped(life[|life| - 1].fetch))
    ensures var f, m := life[|life| - 1].fetch, After(start, life);
            m.Some? && SidesScored(m.value, f)
            && (m.value.score.Some? <==> Mapped(f).score.Some?) && m.value.status == StatusOf(f)
  {
    SettledExactlyWhen(life[|life| - 1].fetch);
  }

  predicate Sorted(m: Match) {
    BothKnown(m) ==> m.first.value.id <= m.second.value.id
  }

  /** A match first seen through this mapping is in the order of the teams'
      numbers for life, whatever is fetched in whatever order. */
  lemma {:induction false} FreshStaysSorted(start: Option<Match>, life: seq<Happening>)
    requires OnlyFetches(life) && (start.Some? ==> Sorted(start.value))
    ensures After(start, life).Some? ==> Sorted(After(start, life).value)
  {
    if life != [] {
      FreshStaysSorted(start, life[..|life| - 1]);
    }
  }

  predicate InOrder(m: Match, first: int, second: int) {
    BothKnown(m) && first != second && m.first.value.id == first && m.second.value.id == second
  }

  /** These two teams are known, one way round or the other. */
  predicate Between(m: Option<Match>, first: int, second: int) {
    m.Some? && (InOrder(m.value, first, second) || InOrder(m.value, second, first))
  }

  /** A fetch of these two teams, or one that names fewer than two. */
  predicate About(f: Fetch, first: int, second: int) {
    Full(f) ==> (Pair(f)[0].id == first && Pair(f)[1].id == second) || (Pair(f)[0].id == second && Pair(f)[1].id == first)
  }

  predicate AllAbout(life: seq<Happening>, first: int, second: int) {
    forall i :: 0 <= i < |life| ==> life[i].Fetched? && About(life[i].fetch, first, second)
  }

  predicate AllFull(life: seq<Happening>) {
    forall i :: 0 <= i < |life| ==> life[i].Fetched? && Full(life[i].fetch)
  }

  lemma {:induction false} FullFetchesKeepOrder(start: Match, first: int, second: int, life: seq<Happening>)
    requires InOrder(start, first, second) && AllAbout(life, first, second) && AllFull(life)
    ensures After(Some(start), life).Some? && InOrder(After(Some(start), life).value, first, second)
  {
    if life != [] {
      FullFetchesKeepOrder(start, first, second, life[..|life| - 1]);
    }
  }

  /** An anchor against the order of the numbers does not outlive a fetch that
      names fewer than two teams. */
  lemma {:induction false} ShortFetchDropsAnchor(start: Match, first: int, second: int, life: seq<Happening>)
    requires InOrder(start, first, second) && first > second && AllAbout(life, first, second) && !AllFull(life)
    ensures After(Some(start), life).Some? && !InOrder(After(Some(start), life).value, first, second)
  {
    var front := life[..|life| - 1];
    if AllFull(front) {
      assert !Full(life[|life| - 1].fetch);
    } else {
      ShortFetchDropsAnchor(start, first, second, front);
    }
  }

  /** Over any fetches of one pair, the order in which an old match was first
      stored holds at the next full fetch exactly when it is the order of the
      numbers or no fetch on the way named fewer than two teams. */
  lemma AnchorHoldsExactlyWhen(start: Match, first: int, second: int, life: seq<Happening>)
    requires InOrder(start, first, second) && AllAbout(life, first, second)
    requires life != [] && life[|life| - 1].Fetched? && Full(life[|life| - 1].fetch)
    ensures InOrder(After(Some(start), life).value, first, second) <==> first <= second || AllFull(life)
  {
    if AllFull(life) {
      FullFetchesKeepOrder(start, first, second, life);
    } else if first > second {
      ShortFetchDropsAnchor(start, first, second, life);
    } else {
      FreshStaysSorted(Some(start), life);
    }
  }

  // ---------- The correction of old matches ----------

  predicate NamedBy(m: Match, a: Team, b: Team) {
    BothKnown(m) && ((m.first.value == a && m.second.value == b) || (m.first.value == b && m.second.value == a))
  }

  /** The investigation found the match with this team first and that one
      second. */
  predicate Names(found: Affected, first: Team, second: Team) {
    found.firstName == first.name && found.secondName == second.name
  }

  predicate TwoTeams(a: Team, b: Team) {
    a.id != b.id && a.name != b.name
  }

  /** Fetches of two teams under their names, or naming fewer than two, and
      runs of the correction. */
  predicate LifeOf(life: seq<Happening>, a: Team, b: Team, found: Affected) {
    forall i :: 0 <= i < |life| ==>
      match life[i]
      case Fetched(f) => Full(f) ==> Pair(f) == [a, b] || Pair(f) == [b, a]
      case BackfillRun(am) => am == found
  }

  predicate NoShortFetch(life: seq<Happening>) {
    forall i :: 0 <= i < |life| && life[i].Fetched? ==> Full(life[i].fetch)
  }

  /** How many runs of the correction changed the match. */
  function Corrections(start: Option<Match>, life: seq<Happening>): nat {
    if life == [] then 0
    else
      var before := After(start, life[..|life| - 1]);
      var h := life[|life| - 1];
      Corrections(start, life[..|life| - 1])
      + if h.BackfillRun? && before.Some? && IsRecorded(before.value, h.found) then 1 else 0
  }

  lemma FullFetchKeepsTeams(m: Match, f: Fetch, a: Team, b: Team)
    requires TwoTeams(a, b) && NamedBy(m, a, b) && (Pair(f) == [a, b] || Pair(f) == [b, a])
    ensures var n := Processed(Some(m), f); n.Some? && NamedBy(n.value, a, b) && n.value.first == m.first
  {
  }

  /** With full fetches only, the guard makes the correction safe to repeat,
      whatever was recorded: it is applied at most once over any number of runs,
      and the corrected order survives every later fetch. */
  lemma {:induction false} CorrectedAtMostOnce(start: Match, a: Team, b: Team, found: Affected, life: seq<Happening>)
    requires TwoTeams(a, b) && start.first == Some(a) && start.second == Some(b)
    requires LifeOf(life, a, b, found) && NoShortFetch(life)
    ensures Corrections(Some(start), life) <= 1
    ensures var m := After(Some(start), life);
            m.Some? && NamedBy(m.value, a, b)
            && (m.value.first == Some(a) <==> Corrections(Some(start), life) == 0)
    ensures Corrections(Some(start), life) == 1 ==> Names(found, a, b)
  {
    if life != [] {
      var n := |life| - 1;
      CorrectedAtMostOnce(start, a, b, found, life[..n]);
      if life[n].Fetched? {
        FullFetchKeepsTeams(After(Some(start), life[..n]).value, life[n].fetch, a, b);
      }
    }
  }

  /** Short fetches do no harm when the match was recorded against the order of
      the numbers: once it has left the recorded order it never comes back. */
  lemma {:induction false} AgainstNumbersOnce(start: Match, a: Team, b: Team, found: Affected, life: seq<Happening>)
    requires TwoTeams(a, b) && a.id > b.id && Names(found, a, b) && NamedBy(start, a, b)
    requires LifeOf(life, a, b, found)
    ensures Corrections(Some(start), life) <= 1
    ensures var m := After(Some(start), life);
            && m.Some? && (BothKnown(m.value) ==> NamedBy(m.value, a, b))
            && (Corrections(Some(start), life) == 1 && BothKnown(m.value) ==> m.value.first == Some(b))
  {
    if life != [] {
      AgainstNumbersOnce(start, a, b, found, life[..|life| - 1]);
    }
  }

  /** The provider's answers a second correction takes: one that names a single
      team, and one with both and the recorded result. */
  function ShortFetch(a: Team): Fetch {
    Fetch([Some(a)], [], "running", false)
  }

  function RecordedFetch(a: Team, b: Team, found: Affected): Fetch {
    Fetch([Some(a), Some(b)], [Result(a.id, found.firstScore), Result(b.id, found.secondScore)], "finished", false)
  }

  function CorrectedTwice(a: Team, b: Team, found: Affected): seq<Happening> {
    [BackfillRun(found), Fetched(ShortFetch(a)), Fetched(RecordedFetch(a, b, found)), BackfillRun(found)]
  }

  /** A match recorded in the order of the numbers falls back to it after a
      short fetch, and a rerun corrects it a second time. */
  lemma ShortFetchReopensCorrection(a: Team, b: Team, found: Affected)
    requires TwoTeams(a, b) && a.id < b.id && Names(found, a, b)
    ensures var start := Match(Some(a), Some(b), Some(Score(found.firstScore, found.secondScore)), Finished);
            && LifeOf(CorrectedTwice(a, b, found), a, b, found)
            && Corrections(Some(start), CorrectedTwice(a, b, found)) == 2
  {
    var start := Match(Some(a), Some(b), Some(Score(found.firstScore, found.secondScore)), Finished);
    var short, full := ShortFetch(a), RecordedFetch(a, b, found);
    var life := CorrectedTwice(a, b, found);
    assert life[..3][..2] == life[..2] && life[..2][..1] == life[..1] && life[..1][..0] == [];
    assert full.opponents[1..] == [Some(b)] && short.opponents[1..] == [];
    assert Present([Some(b)], 1) == [b];
    assert Pair(full) == [a, b];
    assert Present(short.opponents[1..], 1) == [];
    assert Pair(short) == [a];
    assert ResultOf(full.results, b.id) == Some(found.secondScore);
    assert full.results[..1] == [Result(a.id, found.firstScore)];
    assert ResultOf(full.results, a.id) == Some(found.firstScore);
    assert After(Some(start), life[..1]) == Some(SwapSides(start));
    assert !BothKnown(Mapped(short));
    assert After(Some(start), life[..2]) == Some(Mapped(short));
    assert Mapped(full) == Match(Some(a), Some(b), Some(Score(found.firstScore, found.secondScore)), StatusOf(full));
    assert After(Some(start), life[..3]) == Some(Mapped(full));
    assert Corrections(Some(start), life[..1]) == 1;
    assert Corrections(Some(start), life[..3]) == 1;
    assert Corrections(Some(start), life) == 2;
  }

  /** At most one correction, over every life of a match of these two teams,
      with short fetches or without. */
  ghost predicate CorrectsAtMostOnce(a: Team, b: Team, found: Affected, shortFetches: bool) {
    forall start, life ::
      NamedBy(start, a, b) && LifeOf(life, a, b, found) && (shortFetches || NoShortFetch(life)) ==>
        Corrections(Some(start), life) <= 1
  }

  /** The correction is safe to repeat exactly when the match was recorded
      against the order of the teams' numbers, or no fetch names fewer than
      two teams. */
  lemma CorrectsAtMostOnceExactlyWhen(a: Team, b: Team, found: Affected, shortFetches: bool)
    requires TwoTeams(a, b) && Names(found, a, b)
    ensures CorrectsAtMostOnce(a, b, found, shortFetches) <==> a.id > b.id || !shortFetches
  {
    if a.id > b.id || !shortFetches {
      forall start, life | NamedBy(start, a, b) && LifeOf(life, a, b, found) && (shortFetches || NoShortFetch(life))
        ensures Corrections(Some(start), life) <= 1
      {
        if a.id > b.id {
          AgainstNumbersOnce(start, a, b, found, life);
        } else if start.first == Some(a) {
          CorrectedAtMostOnce(start, a, b, found, life);
        } else {
          CorrectedAtMostOnce(start, b, a, found, life);
        }
      }
    } else {
      ShortFetchReopensCorrection(a, b, found);
      var start := Match(Some(a), Some(b), Some(Score(found.firstScore, found.secondScore)), Finished);
      assert NamedBy(start, a, b) && Corrections(Some(start), CorrectedTwice(a, b, found)) == 2;
    }
  }
}
