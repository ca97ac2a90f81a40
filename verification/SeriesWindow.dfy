/** A team's recent record (internal/adapter/grid/provider.go): results are
    looked up newest first, a window of ten at a time, until enough of them
    are usable. */
module SeriesWindow {

  const WINDOW: nat := 10

  /** What looking one series up comes to: a result, nothing usable, or an
      error. */
  datatype Lookup = Result(won: bool) | Unusable | Failed

  datatype Record = Record(wins: nat, losses: nat, sample: nat)

  // ---------- One by one ----------

  function Count(r: Record, l: Lookup): Record {
    if !l.Result? then r
    else if l.won then Record(r.wins + 1, r.losses, r.sample + 1)
    else Record(r.wins, r.losses + 1, r.sample + 1)
  }

  /** The record after walking the first k series one by one, stopping once
      there are enough. */
  function Walk(ids: seq<Lookup>, size: int, k: nat): Record
    requires k <= |ids|
  {
    if k == 0 then Record(0, 0, 0)
    else
      var r := Walk(ids, size, k - 1);
      if r.sample >= size then r else Count(r, ids[k - 1])
  }

  /** How many series such a walk looks up. */
  function Looked(ids: seq<Lookup>, size: int, k: nat): (n: nat)
    requires k <= |ids|
    ensures k <= n <= |ids|
    decreases |ids| - k
  {
    if k == |ids| || Walk(ids, size, k).sample >= size then k else Looked(ids, size, k + 1)
  }

  function Lookups(ids: seq<Lookup>, size: int): nat {
    Looked(ids, size, 0)
  }

  /** A count rounded up to whole windows, or all there is. */
  function WholeWindows(n: nat, all: nat): nat {
    var up := (n + WINDOW - 1) / WINDOW * WINDOW;
    if up < all then up else all
  }

  lemma {:induction false} EnoughIsEnough(ids: seq<Lookup>, size: int, j: nat, k: nat)
    requires j <= k <= |ids| && Walk(ids, size, j).sample >= size
    ensures Walk(ids, size, k) == Walk(ids, size, j)
  {
    if j < k {
      EnoughIsEnough(ids, size, j, k - 1);
    }
  }

  /** The walk goes on exactly as long as there is not enough. */
  lemma {:induction false} LookedStops(ids: seq<Lookup>, size: int, k: nat, j: nat)
    requires k <= |ids| && j <= |ids|
    requires forall i :: 0 <= i < k ==> Walk(ids, size, i).sample < size
    ensures j < Looked(ids, size, k) ==> Walk(ids, size, j).sample < size
    ensures Looked(ids, size, k) <= j < |ids| ==> Walk(ids, size, j).sample >= size
    decreases |ids| - k
  {
    if k < |ids| && Walk(ids, size, k).sample < size {
      LookedStops(ids, size, k + 1, j);
    } else if k <= j {
      if Walk(ids, size, k).sample >= size {
        EnoughIsEnough(ids, size, k, j);
      }
    }
  }

  function Usable(ids: seq<Lookup>): nat {
    if ids == [] then 0 else Usable(ids[..|ids| - 1]) + if ids[|ids| - 1].Result? then 1 else 0
  }

  /** Wins and losses make up the sample, which is never more than asked for
      and short of it only when every series has been looked at. */
  lemma {:induction false} WalkFacts(ids: seq<Lookup>, size: nat, k: nat)
    requires k <= |ids|
    ensures var r := Walk(ids, size, k); r.wins + r.losses == r.sample <= size
    ensures Walk(ids, size, k).sample == size || Walk(ids, size, k).sample == Usable(ids[..k])
  {
    if k > 0 {
      WalkFacts(ids, size, k - 1);
      assert ids[..k][..k - 1] == ids[..k - 1];
    }
  }

  /** How many of the lookups are wins, or losses. */
  function Results(ids: seq<Lookup>, won: bool): nat {
    if ids == [] then 0 else Results(ids[..|ids| - 1], won) + if ids[|ids| - 1] == Result(won) then 1 else 0
  }

  lemma {:induction false} WalkCounts(ids: seq<Lookup>, size: int, k: nat)
    requires k <= |ids| && forall i :: 0 <= i < k ==> Walk(ids, size, i).sample < size
    ensures Walk(ids, size, k) == Record(Results(ids[..k], true), Results(ids[..k], false),
                                         Results(ids[..k], true) + Results(ids[..k], false))
  {
    if k > 0 {
      WalkCounts(ids, size, k - 1);
      assert ids[..k][..k - 1] == ids[..k - 1];
    }
  }

  /** The record holds the wins and the losses among the series looked up. */
  lemma RecordCounts(ids: seq<Lookup>, size: int)
    ensures var seen := ids[..Lookups(ids, size)];
            Walk(ids, size, |ids|) ==
              Record(Results(seen, true), Results(seen, false), Results(seen, true) + Results(seen, false))
  {
    var n := Lookups(ids, size);
    forall i | 0 <= i < n ensures Walk(ids, size, i).sample < size {
      LookedStops(ids, size, 0, i);
    }
    WalkCounts(ids, size, n);
    if n < |ids| {
      LookedStops(ids, size, 0, n);
      EnoughIsEnough(ids, size, n, |ids|);
    }
  }

  /** The least number of whole windows of ten that covers a count, cut off at
      the end. */
  lemma WholeWindowsCover(n: nat, all: nat)
    requires n <= all
    ensures var w := WholeWindows(n, all); n <= w <= all && w < n + 10 && (w == all || w % 10 == 0)
  {
  }

  // ---------- Window by window ----------

  predicate AnyFailed(ids: seq<Lookup>) {
    exists i :: 0 <= i < |ids| && ids[i].Failed?
  }

  /** Looks a window up: each series fills its own place. */
  method LookUp(window: seq<Lookup>) returns (found: seq<Lookup>, ok: bool)
    ensures ok <==> !AnyFailed(window)
    ensures ok ==> found == window
  {
    var results := new Lookup[|window|](i => Unusable);
    for i := 0 to |window|
      invariant forall k :: 0 <= k < i ==> results[k] == window[k] && !window[k].Failed?
    {
      if window[i].Failed? {
        return [], false;
      }
      results[i] := window[i];
    }
    found, ok := results[..], true;
  }

  /** Counts a window's results on top of a record, until there are enough. */
  method CountWindow(ghost ids: seq<Lookup>, ghost start: nat, found: seq<Lookup>, size: int, record: Record)
    returns (r: Record)
    requires start + |found| <= |ids| && found == ids[start..start + |found|] && record == Walk(ids, size, start)
    ensures r == Walk(ids, size, start + |found|)
  {
    var wins: nat, losses: nat, sample: nat := record.wins, record.losses, record.sample;
    for j := 0 to |found|
      invariant Record(wins, losses, sample) == Walk(ids, size, start + j)
    {
      if sample >= size {
        EnoughIsEnough(ids, size, start + j, start + |found|);
        break;
      }
      assert found[j] == ids[start + j] && Walk(ids, size, start + j + 1) == Count(Walk(ids, size, start + j), ids[start + j]);
      if !found[j].Result? {
        continue;
      }
      sample := sample + 1;
      if found[j].won {
        wins := wins + 1;
      } else {
        losses := losses + 1;
      }
    }
    r := Record(wins, losses, sample);
  }

  /** One window of the scan. */
  method ScanWindow(ids: seq<Lookup>, size: int, start: nat, record: Record) returns (r: Record, ok: bool, end: nat)
    requires start < |ids| && record == Walk(ids, size, start)
    ensures end == if start + WINDOW < |ids| then start + WINDOW else |ids|
    ensures ok <==> !AnyFailed(ids[start..end])
    ensures r == if ok then Walk(ids, size, end) else Record(0, 0, 0)
  {
    end := if start + WINDOW < |ids| then start + WINDOW else |ids|;
    var found;
    found, ok := LookUp(ids[start..end]);
    if !ok {
      return Record(0, 0, 0), false, end;
    }
    r := CountWindow(ids, start, found, size, record);
  }

  lemma FailedInEither(a: seq<Lookup>, b: seq<Lookup>)
    ensures AnyFailed(a + b) <==> AnyFailed(a) || AnyFailed(b)
  {
    if i :| 0 <= i < |a| && a[i].Failed? {
      assert (a + b)[i].Failed?;
    }
    if i :| 0 <= i < |b| && b[i].Failed? {
      assert (a + b)[|a| + i].Failed?;
    }
  }

  lemma FailedInWindow(ids: seq<Lookup>, start: nat, end: nat)
    requires start <= end <= |ids|
    ensures AnyFailed(ids[..end]) <==> AnyFailed(ids[..start]) || AnyFailed(ids[start..end])
  {
    assert ids[..end] == ids[..start] + ids[start..end];
    FailedInEither(ids[..start], ids[start..end]);
  }

  lemma FailedIn(ids: seq<Lookup>, n: nat, m: nat)
    requires n <= m <= |ids| && AnyFailed(ids[..n])
    ensures AnyFailed(ids[..m])
  {
    FailedInWindow(ids, n, m);
  }

  lemma RoundUp(n: nat, start: nat)
    requires start % WINDOW == 0 && n > start
    ensures (n + WINDOW - 1) / WINDOW * WINDOW >= start + WINDOW
  {
  }

  lemma WindowIsLookedAt(ids: seq<Lookup>, size: int, start: nat)
    requires start < |ids| && start % WINDOW == 0 && Walk(ids, size, start).sample < size
    ensures (if start + WINDOW < |ids| then start + WINDOW else |ids|) <= WholeWindows(Lookups(ids, size), |ids|)
  {
    LookedStops(ids, size, 0, start);
    RoundUp(Lookups(ids, size), start);
  }

  lemma RoundDown(n: nat, start: nat)
    requires start % WINDOW == 0 && n <= start
    ensures (n + WINDOW - 1) / WINDOW * WINDOW <= start
  {
  }

  lemma ScanStops(ids: seq<Lookup>, size: int, start: nat)
    requires start % WINDOW == 0
    requires start > 0 ==> start - WINDOW < |ids| && Walk(ids, size, start - WINDOW).sample < size
    requires start < |ids| ==> Walk(ids, size, start).sample >= size
    ensures WholeWindows(Lookups(ids, size), |ids|) == if start < |ids| then start else |ids|
  {
    var n := Lookups(ids, size);
    if start > 0 {
      LookedStops(ids, size, 0, start - WINDOW);
      RoundUp(n, start - WINDOW);
    }
    if start < |ids| {
      LookedStops(ids, size, 0, start);
      RoundDown(n, start);
    }
  }

  /** The scan gives the walk's record for no more than the walk's lookups in
      whole windows, and fails exactly when one of those does: that may be a
      lookup the walk would not have needed. */
  method CollectSeriesResults(ids: seq<Lookup>, size: int) returns (record: Record, ok: bool, lookups: nat)
    ensures ok <==> !AnyFailed(ids[..WholeWindows(Lookups(ids, size), |ids|)])
    ensures ok ==> record == Walk(ids, size, |ids|) && lookups == WholeWindows(Lookups(ids, size), |ids|)
    ensures !ok ==> record == Record(0, 0, 0) && lookups <= WholeWindows(Lookups(ids, size), |ids|)
  {
    record, ok, lookups := Record(0, 0, 0), true, 0;
    var start := 0;
    while start < |ids| && record.sample < size
      invariant start % WINDOW == 0 && ok
      invariant lookups == if start < |ids| then start else |ids|
      invariant record == Walk(ids, size, lookups)
      invariant start > 0 ==> start - WINDOW < |ids| && Walk(ids, size, start - WINDOW).sample < size
      invariant !AnyFailed(ids[..lookups])
      decreases |ids| - start
    {
      WindowIsLookedAt(ids, size, start);
      record, ok, lookups := ScanWindow(ids, size, start, record);
      FailedInWindow(ids, start, lookups);
      if !ok {
        FailedIn(ids, lookups, WholeWindows(Lookups(ids, size), |ids|));
        return;
      }
      start := start + WINDOW;
    }
    if start < |ids| {
      EnoughIsEnough(ids, size, start, |ids|);
    }
    ScanStops(ids, size, start);
  }

  /** The walk fails over what it looks up itself, the scan over whole windows. */
  predicate WalkFails(ids: seq<Lookup>, size: int) {
    AnyFailed(ids[..Lookups(ids, size)])
  }

  predicate ScanFails(ids: seq<Lookup>, size: int)
    requires WholeWindows(Lookups(ids, size), |ids|) <= |ids|
  {
    AnyFailed(ids[..WholeWindows(Lookups(ids, size), |ids|)])
  }

  /** The scan fails whenever the walk does, and otherwise exactly when a lookup
      fails in the rest of the walk's last window. */
  lemma ScanFailsExactlyWhen(ids: seq<Lookup>, size: int)
    ensures Lookups(ids, size) <= WholeWindows(Lookups(ids, size), |ids|) <= |ids|
    ensures ScanFails(ids, size) <==>
              WalkFails(ids, size) || AnyFailed(ids[Lookups(ids, size)..WholeWindows(Lookups(ids, size), |ids|)])
  {
    WholeWindowsCover(Lookups(ids, size), |ids|);
    FailedInWindow(ids, Lookups(ids, size), WholeWindows(Lookups(ids, size), |ids|));
  }

  /** One result is asked for and the first series has it; the second cannot be
      looked up. */
  lemma ScanFailsNeedlessly(won: bool)
    ensures var ids := [Result(won), Failed];
            WholeWindows(Lookups(ids, 1), |ids|) == |ids| && ScanFails(ids, 1) && !WalkFails(ids, 1)
  {
    var ids := [Result(won), Failed];
    assert Walk(ids, 1, 1) == Count(Walk(ids, 1, 0), ids[0]);
    assert Looked(ids, 1, 1) == 1 && Lookups(ids, 1) == 1;
    assert ids[..2][1].Failed?;
  }
}
