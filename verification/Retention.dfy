/** Pruning tables that grow with traffic
    (internal/adapter/postgres/retention.go): by age, and by a cap on the
    number of rows. A row without a stamp is one the prune must not touch: an
    outbox message that has not been published. */
module Retention {
  import opened Numerals
  import opened Wrappers

  datatype Row = Row(key: nat, stamp: Option<int>)

  function Stamps(rows: seq<Row>): seq<int> {
    if rows == [] then []
    else (if rows[0].stamp.Some? then [rows[0].stamp.value] else []) + Stamps(rows[1..])
  }

  /** The rows with no stamp, and those stamped at the cutoff or later, in
      their order. */
  function NotBefore(rows: seq<Row>, cutoff: int): seq<Row> {
    if rows == [] then []
    else (if rows[0].stamp.None? || rows[0].stamp.value >= cutoff then [rows[0]] else []) + NotBefore(rows[1..], cutoff)
  }

  lemma KeptNext(rows: seq<Row>, cutoff: int, i: nat, kept: seq<Row>)
    requires i < |rows|
    ensures kept + NotBefore(rows[i..], cutoff) ==
              (if rows[i].stamp.None? || rows[i].stamp.value >= cutoff then kept + [rows[i]] else kept)
              + NotBefore(rows[i + 1..], cutoff)
  {
    assert rows[i..][0] == rows[i] && rows[i..][1..] == rows[i + 1..];
    var rest := NotBefore(rows[i + 1..], cutoff);
    assert (kept + [rows[i]]) + rest == kept + ([rows[i]] + rest) && kept + ([] + rest) == kept + rest;
  }

  // ---------- Newest first ----------

  function Insert(x: int, s: seq<int>): seq<int> {
    if s == [] || x >= s[0] then [x] + s else [s[0]] + Insert(x, s[1..])
  }

  function NewestFirst(s: seq<int>): seq<int> {
    if s == [] then [] else Insert(s[0], NewestFirst(s[1..]))
  }

  predicate Descending(s: seq<int>) {
    forall i, j :: 0 <= i <= j < |s| ==> s[i] >= s[j]
  }

  function CountAtMin(s: seq<int>, v: int): nat {
    if s == [] then 0 else CountAtMin(s[1..], v) + if s[0] >= v then 1 else 0
  }

  lemma {:induction false} InsertCounts(x: int, s: seq<int>, v: int)
    ensures CountAtMin(Insert(x, s), v) == CountAtMin(s, v) + if x >= v then 1 else 0
    ensures |Insert(x, s)| == |s| + 1
  {
    if s == [] || x >= s[0] {
      assert ([x] + s)[1..] == s;
    } else {
      InsertCounts(x, s[1..], v);
      assert ([s[0]] + Insert(x, s[1..]))[1..] == Insert(x, s[1..]);
    }
  }

  lemma {:induction false} InsertDescending(x: int, s: seq<int>)
    requires Descending(s)
    ensures Descending(Insert(x, s))
    ensures forall y :: y in Insert(x, s) ==> y == x || y in s
  {
    if !(s == [] || x >= s[0]) {
      InsertDescending(x, s[1..]);
      var t := Insert(x, s[1..]);
      assert forall y :: y in s ==> y <= s[0];
      assert forall i :: 0 <= i < |t| ==> t[i] in t;
    }
  }

  /** Sorting newest first neither loses nor invents a stamp. */
  lemma {:induction false} NewestFirstSorts(s: seq<int>, v: int)
    ensures Descending(NewestFirst(s)) && |NewestFirst(s)| == |s|
    ensures CountAtMin(NewestFirst(s), v) == CountAtMin(s, v)
  {
    if s != [] {
      NewestFirstSorts(s[1..], v);
      InsertCounts(s[0], NewestFirst(s[1..]), v);
      InsertDescending(s[0], NewestFirst(s[1..]));
    }
  }

  lemma {:induction false} PrefixCounts(s: seq<int>, v: int, k: nat)
    requires Descending(s) && k <= |s|
    ensures (k > 0 ==> s[k - 1] >= v) ==> CountAtMin(s, v) >= k
    ensures (k < |s| ==> s[k] < v) ==> CountAtMin(s, v) <= k
  {
    if s != [] {
      if k > 0 {
        PrefixCounts(s[1..], v, k - 1);
      } else if s[0] < v {
        assert s[1..] != [] ==> s[1..][0] < v;
        PrefixCounts(s[1..], v, 0);
      }
    }
  }

  // ---------- The row cap ----------

  /** The maxRows-th newest stamp; None when there are not that many. */
  function CapCutoff(rows: seq<Row>, maxRows: int): Option<int> {
    var newest := NewestFirst(Stamps(rows));
    if 1 <= maxRows <= |newest| then Some(newest[maxRows - 1]) else None
  }

  function Capped(rows: seq<Row>, maxRows: int): seq<Row> {
    var cutoff := CapCutoff(rows, maxRows);
    if cutoff.Some? then NotBefore(rows, cutoff.value) else rows
  }

  class Table {
    var rows: seq<Row>

    constructor (rows: seq<Row>)
      ensures this.rows == rows
    {
      this.rows := rows;
    }

    method DeleteBefore(cutoff: int) returns (deleted: nat)
      modifies this
      ensures rows == NotBefore(old(rows), cutoff)
      ensures deleted == |old(rows)| - |rows|
    {
      var kept, i := [], 0;
      deleted := 0;
      while i < |rows|
        invariant 0 <= i <= |rows| && rows == old(rows)
        invariant kept + NotBefore(rows[i..], cutoff) == NotBefore(rows, cutoff)
        invariant deleted + |kept| == i
      {
        KeptNext(rows, cutoff, i, kept);
        if rows[i].stamp.Some? && rows[i].stamp.value < cutoff {
          deleted := deleted + 1;
        } else {
          kept := kept + [rows[i]];
        }
        i := i + 1;
      }
      rows := kept;
    }

    /** A cap of zero or less keeps everything. */
    method DeleteExceeding(maxRows: int) returns (deleted: nat)
      modifies this
      ensures rows == Capped(old(rows), maxRows)
      ensures deleted == |old(rows)| - |rows|
    {
      deleted := 0;
      var cutoff := CapCutoff(rows, maxRows);
      if cutoff.Some? {
        deleted := DeleteBefore(cutoff.value);
      }
    }
  }

  lemma {:induction false} SurvivorStamps(rows: seq<Row>, cutoff: int)
    ensures |Stamps(NotBefore(rows, cutoff))| == CountAtMin(Stamps(rows), cutoff)
  {
    if rows != [] {
      SurvivorStamps(rows[1..], cutoff);
      var kept := NotBefore(rows[1..], cutoff);
      assert ([rows[0]] + kept)[1..] == kept && [] + kept == kept;
      assert [] + Stamps(kept) == Stamps(kept) && [] + Stamps(rows[1..]) == Stamps(rows[1..]);
      assert Stamps([rows[0]] + kept) == (if rows[0].stamp.Some? then [rows[0].stamp.value] else []) + Stamps(kept);
      if rows[0].stamp.Some? {
        assert ([rows[0].stamp.value] + Stamps(rows[1..]))[1..] == Stamps(rows[1..]);
      }
    }
  }

  predicate Distinct(s: seq<int>) {
    forall i, j :: 0 <= i < j < |s| ==> s[i] != s[j]
  }

  lemma {:induction false} DistinctCounts(s: seq<int>, v: int)
    requires Distinct(s)
    ensures CountAtMin(s, v) <= CountAtMin(s, v + 1) + if v in s then 1 else 0
  {
    if s != [] {
      DistinctCounts(s[1..], v);
    }
  }

  lemma {:induction false} Survives(rows: seq<Row>, cutoff: int, r: Row)
    ensures r in NotBefore(rows, cutoff) <==> r in rows && (r.stamp.None? || r.stamp.value >= cutoff)
  {
    if rows != [] {
      Survives(rows[1..], cutoff, r);
    }
  }

  /** As often as it was there. */
  lemma {:induction false} SurvivesAsOften(rows: seq<Row>, cutoff: int, r: Row)
    ensures multiset(NotBefore(rows, cutoff))[r] == if r.stamp.None? || r.stamp.value >= cutoff then multiset(rows)[r] else 0
  {
    if rows != [] {
      SurvivesAsOften(rows[1..], cutoff, r);
      assert rows == [rows[0]] + rows[1..];
      var kept := NotBefore(rows[1..], cutoff);
      assert [] + kept == kept && multiset([rows[0]] + kept) == multiset{rows[0]} + multiset(kept);
    }
  }

  predicate AsNew(s: Row, r: Row) {
    s.stamp.Some? && r.stamp.Some? && s.stamp.value >= r.stamp.value
  }

  /** The cap never touches an unstamped row; among the stamped ones it keeps
      whatever is at least as new as something it keeps, at least the capped
      number, and exactly that number when no two stamps are equal. A cap of
      zero or less is none. */
  lemma CapKeepsNewest(rows: seq<Row>, maxRows: int)
    ensures maxRows <= 0 ==> Capped(rows, maxRows) == rows
    ensures maxRows > 0 ==>
            var kept := Capped(rows, maxRows);
            && (forall r :: r in rows && r.stamp.None? ==> r in kept)
            && (forall r, s :: r in kept && s in rows && AsNew(s, r) ==> s in kept)
            && (forall r :: r in kept ==> r in rows)
            && |Stamps(kept)| >= Min(|Stamps(rows)|, maxRows)
            && (Distinct(Stamps(rows)) ==> |Stamps(kept)| == Min(|Stamps(rows)|, maxRows))
  {
    var stamps, cutoff := Stamps(rows), CapCutoff(rows, maxRows);
    var newest := NewestFirst(stamps);
    NewestFirstSorts(stamps, 0);
    if cutoff.Some? {
      var v := cutoff.value;
      forall r ensures r in NotBefore(rows, v) <==> r in rows && (r.stamp.None? || r.stamp.value >= v) {
        Survives(rows, v, r);
      }
      SurvivorStamps(rows, v);
      NewestFirstSorts(stamps, v);
      PrefixCounts(newest, v, maxRows);
      if Distinct(stamps) {
        DistinctCounts(stamps, v);
        NewestFirstSorts(stamps, v + 1);
        PrefixCounts(newest, v + 1, maxRows - 1);
      }
    }
  }

  /** No two rows stamped alike lie on either side of the cap: there are no
      more than maxRows of them, or the next one is strictly older. */
  predicate ClearCut(rows: seq<Row>, maxRows: int)
    requires maxRows > 0
  {
    var newest := NewestFirst(Stamps(rows));
    |newest| <= maxRows || newest[maxRows] < newest[maxRows - 1]
  }

  /** The cap is kept, and met, exactly when the stamps at it differ. */
  lemma CapHoldsExactlyWhen(rows: seq<Row>, maxRows: int)
    requires maxRows > 0
    ensures |Stamps(Capped(rows, maxRows))| <= maxRows <==> ClearCut(rows, maxRows)
    ensures |Stamps(Capped(rows, maxRows))| == Min(|Stamps(rows)|, maxRows) <==> ClearCut(rows, maxRows)
  {
    var stamps := Stamps(rows);
    var newest := NewestFirst(stamps);
    CapKeepsNewest(rows, maxRows);
    NewestFirstSorts(stamps, 0);
    if maxRows <= |newest| {
      var v := newest[maxRows - 1];
      SurvivorStamps(rows, v);
      NewestFirstSorts(stamps, v);
      PrefixCounts(newest, v, maxRows);
      if !ClearCut(rows, maxRows) {
        PrefixCounts(newest, v, maxRows + 1);
      }
    }
  }

  /** With equal stamps the cap can leave more rows than its number. */
  lemma TiesOutliveTheCap()
    ensures var rows := [Row(0, Some(7)), Row(1, Some(7))]; Capped(rows, 1) == rows
  {
    var rows := [Row(0, Some(7)), Row(1, Some(7))];
    assert rows[1..] == [Row(1, Some(7))];
    assert Stamps(rows) == [7, 7];
    assert NewestFirst([7, 7]) == [7, 7] by {
      assert [7, 7][1..] == [7];
    }
    assert NotBefore(rows, 7) == rows;
  }
}
