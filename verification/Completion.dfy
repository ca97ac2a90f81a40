/** Closing a tournament in the chats that followed it
    (internal/app/completion.go): medals, one recap and a mark for each chat,
    guarded by a digest of the final standings. */
module Completion {
  import opened Wrappers
  import opened Numerals
  import Standings
  import TeamOrder

  type UserId = Standings.UserId
  type Standing = Standings.Standing
  type ChatId = int

  type MatchStatus = TeamOrder.Status

  /** What one chat has recorded about the event: who holds which medal, the
      digest of its last completion, and the digests its recaps were sent for. */
  datatype ChatState = ChatState(medals: map<UserId, int>, mark: Option<string>, recaps: seq<string>)

  predicate Terminal(s: MatchStatus) {
    s.Finished? || s.Cancelled? || s.Forfeit?
  }

  /** As the provider reports it, a match holds its event open until it is
      forfeited or spelt finished or cancelled: neither running nor postponed
      is enough, nor a word nobody knows. */
  lemma HoldsOpenExactlyWhen(f: TeamOrder.Fetch)
    ensures !Terminal(TeamOrder.Mapped(f).status) <==>
              && !f.forfeit && !TeamOrder.Spells(f.status, "finished")
              && !TeamOrder.Spells(f.status, "canceled") && !TeamOrder.Spells(f.status, "cancelled")
  {
    TeamOrder.StatusMeans(f);
  }

  // ---------- The digest of the standings ----------

  function Row(s: Standing): string {
    FormatInt(s.user, 10) + [':'] + (FormatInt(s.rank, 10) + [':'] + FormatInt(s.points, 10))
  }

  function RowsOf(standings: seq<Standing>): seq<string> {
    seq(|standings|, i requires 0 <= i < |standings| => Row(standings[i]))
  }

  function CompletionHash(standings: seq<Standing>): string {
    Join(RowsOf(standings), '|')
  }

  lemma RowSplits(s: Standing)
    ensures Split(Row(s), ':') == [FormatInt(s.user, 10), FormatInt(s.rank, 10), FormatInt(s.points, 10)]
    ensures Free(Row(s), '|') && Row(s) != []
  {
    FormatIntFree(s.user, 10, ':');
    FormatIntFree(s.rank, 10, ':');
    FormatIntFree(s.points, 10, ':');
    FormatIntFree(s.user, 10, '|');
    FormatIntFree(s.rank, 10, '|');
    FormatIntFree(s.points, 10, '|');
    var tail := FormatInt(s.rank, 10) + [':'] + FormatInt(s.points, 10);
    SplitAt(FormatInt(s.user, 10), ':', tail);
    SplitAt(FormatInt(s.rank, 10), ':', FormatInt(s.points, 10));
    SplitFree(FormatInt(s.points, 10), ':');
    FreeAppend(FormatInt(s.rank, 10), [':'], '|');
    FreeAppend(FormatInt(s.rank, 10) + [':'], FormatInt(s.points, 10), '|');
    FreeAppend(FormatInt(s.user, 10), [':'], '|');
    FreeAppend(FormatInt(s.user, 10) + [':'], tail, '|');
  }

  lemma RowInjective(s: Standing, t: Standing)
    requires Row(s) == Row(t)
    ensures s.user == t.user && s.rank == t.rank && s.points == t.points
  {
    RowSplits(s);
    RowSplits(t);
    FormatIntInjective(s.user, t.user, 10);
    FormatIntInjective(s.rank, t.rank, 10);
    FormatIntInjective(s.points, t.points, 10);
  }

  lemma HashSplits(standings: seq<Standing>)
    ensures standings == [] <==> CompletionHash(standings) == []
    ensures standings != [] ==> Split(CompletionHash(standings), '|') == RowsOf(standings)
  {
    if standings != [] {
      forall i | 0 <= i < |standings| ensures Free(RowsOf(standings)[i], '|') {
        RowSplits(standings[i]);
      }
      SplitJoin(RowsOf(standings), '|');
      RowSplits(standings[0]);
      assert RowsOf(standings)[0] == Row(standings[0]);
    }
  }

  predicate SameRows(s: seq<Standing>, t: seq<Standing>) {
    && |s| == |t|
    && forall i :: 0 <= i < |s| ==> s[i].user == t[i].user && s[i].rank == t[i].rank && s[i].points == t[i].points
  }

  lemma SameRowsSameHash(s: seq<Standing>, t: seq<Standing>)
    requires SameRows(s, t)
    ensures CompletionHash(s) == CompletionHash(t)
  {
    assert RowsOf(s) == RowsOf(t);
  }

  /** Two digests agree exactly when the standings agree on user, rank and
      points, row by row. */
  lemma HashInjective(s: seq<Standing>, t: seq<Standing>)
    ensures CompletionHash(s) == CompletionHash(t)
       <==> SameRows(s, t)
  {
    HashSplits(s);
    HashSplits(t);
    if CompletionHash(s) == CompletionHash(t) {
      if s != [] {
        assert |RowsOf(s)| == |s| && |RowsOf(t)| == |t|;
        forall i | 0 <= i < |s| ensures s[i].user == t[i].user && s[i].rank == t[i].rank && s[i].points == t[i].points {
          assert RowsOf(s)[i] == Row(s[i]) && RowsOf(t)[i] == Row(t[i]);
          RowInjective(s[i], t[i]);
        }
      }
    }
    if SameRows(s, t) {
      SameRowsSameHash(s, t);
    }
  }

  // ---------- One chat ----------

  predicate AnyPredictions(standings: seq<Standing>) {
    exists i :: 0 <= i < |standings| && standings[i].predictions > 0
  }

  /** Ranks one to three are medals; a later row of the same user replaces an
      earlier one. */
  function MedalsOf(standings: seq<Standing>): map<UserId, int> {
    if standings == [] then map[]
    else
      var last := standings[|standings| - 1];
      var rest := MedalsOf(standings[..|standings| - 1]);
      if 1 <= last.rank <= 3 then rest[last.user := last.rank] else rest
  }

  lemma {:induction false} NoRowNoMedal(standings: seq<Standing>, user: UserId)
    requires forall i :: 0 <= i < |standings| ==> standings[i].user != user
    ensures user !in MedalsOf(standings)
  {
    if standings != [] {
      NoRowNoMedal(standings[..|standings| - 1], user);
    }
  }

  lemma {:induction false} MedalsMeaning(standings: seq<Standing>, i: nat)
    requires i < |standings| && forall j, k :: 0 <= j < k < |standings| ==> standings[j].user != standings[k].user
    ensures standings[i].user in MedalsOf(standings) <==> 1 <= standings[i].rank <= 3
    ensures standings[i].user in MedalsOf(standings) ==> MedalsOf(standings)[standings[i].user] == standings[i].rank
  {
    var front := standings[..|standings| - 1];
    if i < |front| {
      MedalsMeaning(front, i);
    } else {
      NoRowNoMedal(front, standings[i].user);
    }
  }

  /** All that a pass takes from the standings. */
  datatype Digest = Digest(hash: string, anyPredictions: bool, medals: map<UserId, int>)

  function DigestOf(standings: seq<Standing>): Digest {
    Digest(CompletionHash(standings), AnyPredictions(standings), MedalsOf(standings))
  }

  predicate UpToDate(c: ChatState, d: Digest) {
    c.mark == Some(d.hash)
  }

  /** The writes of one pass that found the digest changed. */
  function Written(c: ChatState, d: Digest, wanted: bool): ChatState {
    if !d.anyPredictions then c.(mark := Some(d.hash))
    else ChatState(d.medals, Some(d.hash), if wanted then c.recaps + [d.hash] else c.recaps)
  }

  function Completed(c: ChatState, standings: seq<Standing>, wanted: bool): ChatState {
    var d := DigestOf(standings);
    if UpToDate(c, d) then c else Written(c, d, wanted)
  }

  /** What a pass leaves: it does something exactly when the mark is another's;
      then the mark is the standings' own, somebody's predictions bring the
      medals, and the recap goes out to a chat that wants it. */
  lemma PassMeans(c: ChatState, standings: seq<Standing>, wanted: bool)
    ensures var after, hash := Completed(c, standings, wanted), CompletionHash(standings);
            var predicted := exists i :: 0 <= i < |standings| && standings[i].predictions > 0;
            && after.mark == Some(hash)
            && (after == c <==> c.mark == Some(hash))
            && (c.mark != Some(hash) ==>
                  && after.medals == (if predicted then MedalsOf(standings) else c.medals)
                  && after.recaps == if predicted && wanted then c.recaps + [hash] else c.recaps)
  {
    var d := DigestOf(standings);
    if !UpToDate(c, d) {
      assert Completed(c, standings, wanted) == Written(c, d, wanted);
    }
  }

  /** Repeating a pass on the same standings does nothing. */
  lemma CompletedTwice(c: ChatState, standings: seq<Standing>, wanted: bool, wantedThen: bool)
    ensures Completed(Completed(c, standings, wanted), standings, wantedThen) == Completed(c, standings, wanted)
  {
  }

  /** The digest leaves the number of predictions out. Once a chat is marked
      with nobody having predicted, standings with predictions are taken for
      unchanged, with no medals and no recap, exactly when they have the same
      rows; otherwise they get both. */
  lemma MarkHidesPredictions(c: ChatState, none: seq<Standing>, some: seq<Standing>, wanted: bool)
    requires !AnyPredictions(none) && AnyPredictions(some)
    ensures var marked := Completed(c, none, wanted);
            var again := Completed(marked, some, true);
            && marked.medals == c.medals && marked.recaps == c.recaps
            && (again == marked <==> SameRows(none, some))
            && (again != marked ==> again.medals == MedalsOf(some) && again.recaps == c.recaps + [CompletionHash(some)])
  {
    HashInjective(none, some);
  }

  /** Where a chat's transaction breaks off, if it does. */
  datatype Fault = Fine | Unread | AfterMedals | AfterRecap | AtCommit

  /** What one chat's pass finds: its standings, whether it wants recaps, and
      whether something fails. */
  datatype Visit = Visit(chat: ChatId, standings: seq<Standing>, wanted: bool, fault: Fault)

  const NOTHING := ChatState(map[], None, [])

  function StateOf(chats: map<ChatId, ChatState>, chat: ChatId): ChatState {
    if chat in chats then chats[chat] else NOTHING
  }

  function Visited(chats: map<ChatId, ChatState>, v: Visit, ok: bool): map<ChatId, ChatState> {
    if ok then chats[v.chat := Completed(StateOf(chats, v.chat), v.standings, v.wanted)] else chats
  }

  /** Whether a visit comes through: reading or committing must not fail, and
      neither must the writes it gets to. */
  predicate ComesThrough(c: ChatState, v: Visit) {
    match v.fault
    case Fine => true
    case Unread => false
    case AtCommit => false
    case _ => c.mark == Some(CompletionHash(v.standings)) || !AnyPredictions(v.standings)
  }

  function VisitedAll(chats: map<ChatId, ChatState>, visits: seq<Visit>, oks: seq<bool>): map<ChatId, ChatState>
    requires |oks| == |visits|
  {
    if visits == [] then chats
    else
      var n := |visits| - 1;
      Visited(VisitedAll(chats, visits[..n], oks[..n]), visits[n], oks[n])
  }

  predicate DistinctChats(visits: seq<Visit>) {
    forall i, j :: 0 <= i < j < |visits| ==> visits[i].chat != visits[j].chat
  }

  lemma {:induction false} NotVisited(chats: map<ChatId, ChatState>, visits: seq<Visit>, oks: seq<bool>, chat: ChatId)
    requires |oks| == |visits| && forall i :: 0 <= i < |visits| ==> visits[i].chat != chat
    ensures StateOf(VisitedAll(chats, visits, oks), chat) == StateOf(chats, chat)
  {
    if visits != [] {
      var n := |visits| - 1;
      NotVisited(chats, visits[..n], oks[..n], chat);
    }
  }

  /** A chat ends up as its own visit leaves it, whatever happens to the rest. */
  lemma {:induction false} EachChatOnItsOwn(chats: map<ChatId, ChatState>, visits: seq<Visit>, oks: seq<bool>, i: nat)
    requires |oks| == |visits| && DistinctChats(visits) && i < |visits|
    ensures var was, now := StateOf(chats, visits[i].chat), StateOf(VisitedAll(chats, visits, oks), visits[i].chat);
            now == if oks[i] then Completed(was, visits[i].standings, visits[i].wanted) else was
  {
    var n := |visits| - 1;
    var before := VisitedAll(chats, visits[..n], oks[..n]);
    assert VisitedAll(chats, visits, oks) == Visited(before, visits[n], oks[n]);
    if i < n {
      EachChatOnItsOwn(chats, visits[..n], oks[..n], i);
      assert visits[i].chat != visits[n].chat;
    } else {
      NotVisited(chats, visits[..n], oks[..n], visits[i].chat);
    }
  }

  class EventCompletion {
    var chats: map<ChatId, ChatState>

    constructor ()
      ensures chats == map[]
    {
      chats := map[];
    }

    method HashRows(standings: seq<Standing>) returns (hash: string)
      ensures hash == CompletionHash(standings)
    {
      var parts := new string[|standings|](i => "");
      for i := 0 to |standings|
        invariant forall k :: 0 <= k < i ==> parts[k] == Row(standings[k])
      {
        parts[i] := Row(standings[i]);
      }
      assert parts[..] == RowsOf(standings);
      hash := Join(parts[..], '|');
    }

    method SomebodyPredicted(standings: seq<Standing>) returns (any: bool)
      ensures any <==> AnyPredictions(standings)
    {
      for i := 0 to |standings|
        invariant forall k :: 0 <= k < i ==> standings[k].predictions == 0
      {
        if standings[i].predictions > 0 {
          return true;
        }
      }
      any := false;
    }

    method AwardMedals(standings: seq<Standing>) returns (medals: map<UserId, int>)
      ensures medals == MedalsOf(standings)
    {
      medals := map[];
      for i := 0 to |standings|
        invariant medals == MedalsOf(standings[..i])
      {
        assert standings[..i + 1][..i] == standings[..i];
        if standings[i].rank < 1 || standings[i].rank > 3 {
          continue;
        }
        medals := medals[standings[i].user := standings[i].rank];
      }
      assert standings[..|standings|] == standings;
    }

    /** All of one chat's writes, or none. */
    method CompleteForChat(v: Visit) returns (ok: bool)
      modifies this
      ensures ok <==> ComesThrough(StateOf(old(chats), v.chat), v)
      ensures chats == Visited(old(chats), v, ok)
    {
      var before := chats;
      var c := StateOf(chats, v.chat);
      if v.fault.Unread? {
        return false;
      }
      var hash := HashRows(v.standings);
      if c.mark == Some(hash) {
        chats := chats[v.chat := c];
        ok := true;
      } else {
        ok := Write(v, hash);
      }
      if !ok || v.fault.AtCommit? {
        chats := before;
        ok := false;
      }
    }

    method Write(v: Visit, hash: string) returns (ok: bool)
      requires hash == CompletionHash(v.standings)
      modifies this
      ensures ok <==> v.fault.Fine? || v.fault.AtCommit? || v.fault.Unread? || !AnyPredictions(v.standings)
      ensures ok ==> chats == old(chats)[v.chat := Written(StateOf(old(chats), v.chat), DigestOf(v.standings), v.wanted)]
    {
      var c := StateOf(chats, v.chat);
      var any := SomebodyPredicted(v.standings);
      if any {
        var medals := AwardMedals(v.standings);
        chats := chats[v.chat := c.(medals := medals)];
        if v.fault.AfterMedals? {
          return false;
        }
        if v.wanted {
          chats := chats[v.chat := chats[v.chat].(recaps := c.recaps + [hash])];
        }
        if v.fault.AfterRecap? {
          return false;
        }
      }
      chats := chats[v.chat := StateOf(chats, v.chat).(mark := Some(hash))];
      ok := true;
    }

    /** Waits until every match of the event is over; then one failing chat
        does not keep the others from being completed. */
    method Complete(matches: seq<MatchStatus>, visits: seq<Visit>) returns (oks: seq<bool>)
      modifies this
      ensures matches == [] || (exists i :: 0 <= i < |matches| && !Terminal(matches[i])) ==> oks == [] && chats == old(chats)
      ensures matches != [] && (forall i :: 0 <= i < |matches| ==> Terminal(matches[i])) ==>
                && |oks| == |visits| && (forall i :: 0 <= i < |visits| && visits[i].fault.Fine? ==> oks[i])
                && chats == VisitedAll(old(chats), visits, oks)
    {
      oks := [];
      if matches == [] {
        return;
      }
      for i := 0 to |matches|
        invariant forall k :: 0 <= k < i ==> Terminal(matches[k])
      {
        if !Terminal(matches[i]) {
          return;
        }
      }
      oks := CompleteChats(visits);
    }

    method CompleteChats(visits: seq<Visit>) returns (oks: seq<bool>)
      modifies this
      ensures |oks| == |visits| && forall i :: 0 <= i < |visits| && visits[i].fault.Fine? ==> oks[i]
      ensures chats == VisitedAll(old(chats), visits, oks)
    {
      oks := [];
      for i := 0 to |visits|
        invariant |oks| == i && forall k :: 0 <= k < i && visits[k].fault.Fine? ==> oks[k]
        invariant chats == VisitedAll(old(chats), visits[..i], oks)
      {
        var ok := CompleteForChat(visits[i]);
        oks := oks + [ok];
        assert visits[..i + 1][..i] == visits[..i] && oks[..i] + [ok] == oks;
      }
      assert visits[..|visits|] == visits;
    }
  }
}
