/** Callback payloads and their scope prefix
    (internal/adapter/telegram/callbackdata.go). A character stands for one
    byte: everything on the wire here is ASCII. */
module CallbackData {
  import opened Wrappers
  import opened Numerals

  const CALLBACK_DATA_LIMIT: nat := 64
  const SEPARATOR: char := '|'

  // ---------- Scopes ----------

  datatype Scope = Unscoped | ChatScope(id: int) | UserScope(id: int)

  predicate ValidScope(s: Scope) {
    s.Unscoped? || IsInt64(s.id)
  }

  function Prefix(s: Scope): string {
    match s
    case Unscoped => []
    case ChatScope(id) => ['c'] + FormatInt(id, 36) + [SEPARATOR]
    case UserScope(id) => ['u'] + FormatInt(id, 36) + [SEPARATOR]
  }

  datatype CutResult = Cut(head: string, tail: string, found: bool)

  /** The text before and after the first separator. */
  function CutAt(s: string, sep: char): (c: CutResult)
    ensures c.found <==> !Free(s, sep)
    ensures Free(c.head, sep)
    ensures s == if c.found then c.head + [sep] + c.tail else c.head
  {
    if s == [] then Cut([], [], false)
    else if s[0] == sep then Cut([], s[1..], true)
    else
      var rest := CutAt(s[1..], sep);
      assert !rest.found ==> Free(s, sep);
      rest.(head := [s[0]] + rest.head)
  }

  function SplitScope(data: string): (Scope, string) {
    var c := CutAt(data, SEPARATOR);
    if !c.found || c.head == [] then (Unscoped, data)
    else
      var id := ParseInt(c.head[1..], 36);
      if id.None? then (Unscoped, data)
      else if c.head[0] == 'c' then (ChatScope(id.value), c.tail)
      else if c.head[0] == 'u' then (UserScope(id.value), c.tail)
      else (Unscoped, data)
  }

  lemma {:induction false} CutFirst(head: string, tail: string, sep: char)
    requires Free(head, sep)
    ensures CutAt(head + [sep] + tail, sep) == Cut(head, tail, true)
  {
    var s := head + [sep] + tail;
    if head == [] {
      assert s[1..] == tail;
    } else {
      CutFirst(head[1..], tail, sep);
      assert s[1..] == head[1..] + [sep] + tail;
      assert [head[0]] + head[1..] == head;
    }
  }

  /** A scoped payload decodes to the very scope and payload it was made of,
      whatever the id and whatever bytes the payload holds, further
      separators included. */
  lemma ScopeRoundTrip(s: Scope, payload: string)
    requires ValidScope(s) && !s.Unscoped?
    ensures SplitScope(Prefix(s) + payload) == (s, payload)
  {
    var kind := if s.ChatScope? then 'c' else 'u';
    var head := [kind] + FormatInt(s.id, 36);
    FormatIntFree(s.id, 36, SEPARATOR);
    CutFirst(head, payload, SEPARATOR);
    assert Prefix(s) + payload == head + [SEPARATOR] + payload;
    assert head[1..] == FormatInt(s.id, 36);
    ParseFormatInt(s.id, 36);
  }

  /** What decoding takes off is always a prefix that names the scope it
      returned; unscoped data comes back whole. */
  lemma SplitScopeSound(data: string)
    ensures var (s, payload) := SplitScope(data);
            && ValidScope(s)
            && (s.Unscoped? ==> payload == data)
            && (!s.Unscoped? ==>
                  exists text :: && Free(text, SEPARATOR) && ParseInt(text, 36) == Some(s.id)
                                 && data == [if s.ChatScope? then 'c' else 'u'] + text + [SEPARATOR] + payload)
  {
    var (s, payload) := SplitScope(data);
    if !s.Unscoped? {
      var c := CutAt(data, SEPARATOR);
      var text := c.head[1..];
      assert c.head == [c.head[0]] + text;
      assert Free(text, SEPARATOR) && ParseInt(text, 36) == Some(s.id);
      assert data == [if s.ChatScope? then 'c' else 'u'] + text + [SEPARATOR] + payload;
    }
  }

  /** A sign, thirteen digits, the kind and the separator: sixteen bytes at
      most. */
  lemma PrefixLength(s: Scope)
    requires ValidScope(s)
    ensures |Prefix(s)| <= 16
  {
    if !s.Unscoped? {
      FormatInt36Length(s.id);
    }
  }

  // ---------- Scoping a keyboard ----------

  /** A button without callback data opens a URL. */
  type Button = Option<string>
  type Row = seq<Button>

  predicate OverBudget(s: Scope, data: string) {
    Free(data, SEPARATOR) && |Prefix(s) + data| > CALLBACK_DATA_LIMIT
  }

  function ScopedData(s: Scope, data: string): string {
    if !Free(data, SEPARATOR) || OverBudget(s, data) then data else Prefix(s) + data
  }

  function ScopedButton(s: Scope, b: Button): Button {
    if b.None? then b else Some(ScopedData(s, b.value))
  }

  function ScopedRow(s: Scope, row: Row): Row {
    seq(|row|, i requires 0 <= i < |row| => ScopedButton(s, row[i]))
  }

  function ScopedKeyboard(s: Scope, rows: seq<Row>): seq<Row> {
    seq(|rows|, i requires 0 <= i < |rows| => ScopedRow(s, rows[i]))
  }

  function DroppedInRow(s: Scope, row: Row): nat {
    if row == [] then 0
    else
      var last := row[|row| - 1];
      DroppedInRow(s, row[..|row| - 1]) + if last.Some? && OverBudget(s, last.value) then 1 else 0
  }

  function Dropped(s: Scope, rows: seq<Row>): nat {
    if rows == [] then 0 else Dropped(s, rows[..|rows| - 1]) + DroppedInRow(s, rows[|rows| - 1])
  }

  predicate TooLong(s: Scope, b: Button) {
    b.Some? && Free(b.value, '|') && |Prefix(s)| + |b.value| > 64
  }

  function TooLongIn(s: Scope, row: Row): set<nat> {
    set i | 0 <= i < |row| && TooLong(s, row[i])
  }

  lemma TooLongPush(s: Scope, row: Row)
    requires row != []
    ensures var n := |row| - 1;
            |TooLongIn(s, row)| == |TooLongIn(s, row[..n])| + if TooLong(s, row[n]) then 1 else 0
  {
    var n := |row| - 1;
    assert forall i :: 0 <= i < n ==> row[..n][i] == row[i];
    assert n !in TooLongIn(s, row[..n]);
    assert TooLongIn(s, row) == TooLongIn(s, row[..n]) + if TooLong(s, row[n]) then {n} else {};
  }

  /** A row's count is that of the buttons whose payload would be too long with the
      scope in front. */
  lemma {:induction false} DroppedCounts(s: Scope, row: Row)
    ensures DroppedInRow(s, row) == |TooLongIn(s, row)|
  {
    if row == [] {
      assert TooLongIn(s, row) == {};
    } else {
      DroppedCounts(s, row[..|row| - 1]);
      TooLongPush(s, row);
    }
  }

  method ApplyToButton(s: Scope, button: Button) returns (scoped: Button, over: bool)
    ensures scoped == ScopedButton(s, button)
    ensures over <==> button.Some? && OverBudget(s, button.value)
  {
    scoped, over := button, false;
    if button.Some? && !CutAt(button.value, SEPARATOR).found {
      var data := Prefix(s) + button.value;
      if |data| > CALLBACK_DATA_LIMIT {
        over := true;
      } else {
        scoped := Some(data);
      }
    }
  }

  lemma DroppedStep(s: Scope, row: Row, i: nat)
    requires i < |row|
    ensures DroppedInRow(s, row[..i + 1]) ==
            DroppedInRow(s, row[..i]) + if row[i].Some? && OverBudget(s, row[i].value) then 1 else 0
  {
    assert row[..i + 1][..i] == row[..i];
  }

  class InlineKeyboard {
    var rows: seq<Row>

    constructor (rows: seq<Row>)
      ensures this.rows == rows
    {
      this.rows := rows;
    }

    /** Rewrites the buttons one at a time, as they stand. */
    method ApplyScope(s: Scope) returns (dropped: nat)
      modifies this
      ensures s.Unscoped? ==> rows == old(rows) && dropped == 0
      ensures !s.Unscoped? ==> rows == ScopedKeyboard(s, old(rows)) && dropped == Dropped(s, old(rows))
    {
      dropped := 0;
      if s.Unscoped? {
        return;
      }
      var r := 0;
      while r < |rows|
        invariant 0 <= r <= |rows| == |old(rows)|
        invariant forall k :: 0 <= k < r ==> rows[k] == ScopedRow(s, old(rows)[k])
        invariant forall k :: r <= k < |rows| ==> rows[k] == old(rows)[k]
        invariant dropped == Dropped(s, old(rows)[..r])
      {
        var inRow := ApplyToRow(s, r);
        assert old(rows)[..r + 1][..r] == old(rows)[..r];
        dropped := dropped + inRow;
        r := r + 1;
      }
      assert old(rows)[..r] == old(rows);
    }

    method ApplyToRow(s: Scope, r: nat) returns (dropped: nat)
      requires r < |rows|
      modifies this
      ensures rows == old(rows)[r := ScopedRow(s, old(rows)[r])]
      ensures dropped == DroppedInRow(s, old(rows)[r])
    {
      dropped := 0;
      var row, i := rows[r], 0;
      ghost var before := row;
      while i < |row|
        invariant rows == old(rows) && 0 <= i <= |before| == |row|
        invariant forall k :: 0 <= k < i ==> row[k] == ScopedButton(s, before[k])
        invariant forall k :: i <= k < |row| ==> row[k] == before[k]
        invariant dropped == DroppedInRow(s, before[..i])
      {
        DroppedStep(s, before, i);
        assert row[i] == before[i];
        var button, over := ApplyToButton(s, row[i]);
        row := row[i := button];
        if over {
          dropped := dropped + 1;
        }
        i := i + 1;
      }
      assert before[..i] == before;
      assert row == ScopedRow(s, before);
      rows := rows[r := row];
    }
  }

  /** Scoping a button never changes the payload its handler sees, and only
      an over-budget button stays without the scope. */
  lemma ScopingKeepsPayload(s: Scope, data: string)
    requires ValidScope(s) && !s.Unscoped? && Free(data, SEPARATOR)
    ensures SplitScope(ScopedData(s, data)) == (if OverBudget(s, data) then Unscoped else s, data)
  {
    if !OverBudget(s, data) {
      ScopeRoundTrip(s, data);
    }
  }

  /** A button that carries a scope is out of reach of every later scoping,
      the same scope or another one. */
  lemma FirstScopeWins(s: Scope, t: Scope, data: string)
    requires ScopedData(s, data) != data
    ensures ScopedData(t, ScopedData(s, data)) == ScopedData(s, data)
  {
    var scoped := Prefix(s) + data;
    assert scoped[|Prefix(s)| - 1] == SEPARATOR;
  }

  lemma ScopingIsIdempotent(s: Scope, rows: seq<Row>)
    ensures ScopedKeyboard(s, ScopedKeyboard(s, rows)) == ScopedKeyboard(s, rows)
  {
    forall r | 0 <= r < |rows|
      ensures ScopedRow(s, ScopedRow(s, rows[r])) == ScopedRow(s, rows[r])
    {
      forall i | 0 <= i < |rows[r]| && rows[r][i].Some?
        ensures ScopedButton(s, ScopedButton(s, rows[r][i])) == ScopedButton(s, rows[r][i])
      {
        var data := rows[r][i].value;
        if ScopedData(s, data) != data {
          FirstScopeWins(s, s, data);
        }
      }
    }
  }

  // ---------- Event payloads ----------

  /** A UUID as its thirty-two hexadecimal digits. */
  predicate IsUuid(digits: string) {
    |digits| == 32 && Free(digits, '-') && Free(digits, SEPARATOR)
  }

  function DashedUuid(d: string): string
    requires IsUuid(d)
  {
    Join([d[..8], d[8..12], d[12..16], d[16..20], d[20..]], '-')
  }

  function Without(s: string, c: char): string {
    if s == [] then [] else (if s[0] == c then [] else [s[0]]) + Without(s[1..], c)
  }

  function CompactUuid(d: string): string
    requires IsUuid(d)
  {
    Without(DashedUuid(d), '-')
  }

  lemma {:induction false} WithoutFree(s: string, c: char)
    requires Free(s, c)
    ensures Without(s, c) == s
  {
    if s != [] {
      WithoutFree(s[1..], c);
    }
  }

  lemma {:induction false} WithoutSep(s: string, c: char, t: string)
    requires Free(s, c)
    ensures Without(s + ([c] + t), c) == s + Without(t, c)
  {
    var u := s + ([c] + t);
    if s == [] {
      assert u == [c] + t && u[1..] == t;
    } else {
      assert u[1..] == s[1..] + ([c] + t);
      WithoutSep(s[1..], c, t);
      assert s == [s[0]] + s[1..];
    }
  }

  function Flatten(parts: seq<string>): string {
    if parts == [] then [] else parts[0] + Flatten(parts[1..])
  }

  lemma {:induction false} WithoutJoin(parts: seq<string>, c: char)
    requires forall i :: 0 <= i < |parts| ==> Free(parts[i], c)
    ensures Without(Join(parts, c), c) == Flatten(parts)
  {
    if |parts| == 1 {
      WithoutFree(parts[0], c);
      assert Flatten(parts[1..]) == [];
    } else if |parts| > 1 {
      WithoutJoin(parts[1..], c);
      WithoutSep(parts[0], c, Join(parts[1..], c));
      assert Join(parts, c) == parts[0] + ([c] + Join(parts[1..], c));
    }
  }

  /** Dropping the four dashes leaves the digits themselves. */
  lemma CompactUuidIsDigits(d: string)
    requires IsUuid(d)
    ensures CompactUuid(d) == d
  {
    var parts := [d[..8], d[8..12], d[12..16], d[16..20], d[20..]];
    WithoutJoin(parts, '-');
    assert Flatten(parts[5..]) == [];
    assert Flatten(parts[4..]) == d[20..];
    assert Flatten(parts[3..]) == d[16..];
    assert Flatten(parts[2..]) == d[12..];
    assert Flatten(parts[1..]) == d[8..];
    assert Flatten(parts) == d;
  }

  const EVENT_ACTIONS: seq<string> :=
    ["subscribe:", "events:view:", "unsubscribe:", "event-topic:", "stats:event:", "stats:mine:"]

  function EventPayload(action: string, event: string): string
    requires IsUuid(event)
  {
    action + CompactUuid(event)
  }

  /** No event button ever has to give its scope up: every one of them fits
      the limit under every scope and decodes to what it was built from. */
  lemma EventPayloadsFit(s: Scope, k: nat, event: string)
    requires ValidScope(s) && !s.Unscoped? && k < |EVENT_ACTIONS| && IsUuid(event)
    ensures var data := EventPayload(EVENT_ACTIONS[k], event);
            && |ScopedData(s, data)| <= CALLBACK_DATA_LIMIT
            && SplitScope(ScopedData(s, data)) == (s, data)
  {
    var action := EVENT_ACTIONS[k];
    assert |action| <= 12 && Free(action, SEPARATOR) by {
      assert k == 0 || k == 1 || k == 2 || k == 3 || k == 4 || k == 5;
    }
    CompactUuidIsDigits(event);
    PrefixLength(s);
    ScopingKeepsPayload(s, EventPayload(action, event));
  }

  /** The one builder that names two ids does not always fit: with two
      extreme ids the button is left without its scope. */
  function AppointPayload(chat: int, user: int): string {
    "tmatch_admin:appoint:" + FormatInt(chat, 36) + ":" + FormatInt(user, 36)
  }

  lemma AppointShape(chat: string, user: string)
    requires Free(chat, SEPARATOR) && Free(user, SEPARATOR)
    ensures var data := "tmatch_admin:appoint:" + chat + ":" + user;
            Free(data, SEPARATOR) && |data| == |chat| + |user| + 22
  {
    var action := "tmatch_admin:appoint:";
    assert |action| == 21 && Free(action, SEPARATOR) && Free(":", SEPARATOR);
    FreeAppend(action, chat, SEPARATOR);
    FreeAppend(action + chat, ":", SEPARATOR);
    FreeAppend(action + chat + ":", user, SEPARATOR);
  }

  lemma AppointFits(s: Scope, chat: int, user: int)
    requires ValidScope(s) && !s.Unscoped? && IsInt64(chat) && IsInt64(user)
    ensures var data := AppointPayload(chat, user);
            SplitScope(ScopedData(s, data)) ==
              (if |FormatInt(s.id, 36)| + |FormatInt(chat, 36)| + |FormatInt(user, 36)| <= 40 then s else Unscoped, data)
  {
    var data := AppointPayload(chat, user);
    FormatIntFree(chat, 36, SEPARATOR);
    FormatIntFree(user, 36, SEPARATOR);
    AppointShape(FormatInt(chat, 36), FormatInt(user, 36));
    ScopingKeepsPayload(s, data);
    assert |Prefix(s)| == |FormatInt(s.id, 36)| + 2;
  }

  // ---------- Permission masks ----------

  const ALL_PERMISSIONS: seq<string> :=
    ["manage_events", "manage_matches", "view_stats", "manage_group_settings"]

  predicate Bit(mask: int, i: nat) {
    (mask / Pow(2, i)) % 2 == 1
  }

  function PermMask(perms: seq<string>): (mask: nat)
    ensures mask <= 15
  {
    (if ALL_PERMISSIONS[0] in perms then 1 else 0) + (if ALL_PERMISSIONS[1] in perms then 2 else 0) +
    (if ALL_PERMISSIONS[2] in perms then 4 else 0) + (if ALL_PERMISSIONS[3] in perms then 8 else 0)
  }

  function PermsFrom(mask: int, i: nat): seq<string>
    requires i <= 4
    decreases 4 - i
  {
    if i == 4 then []
    else (if Bit(mask, i) then [ALL_PERMISSIONS[i]] else []) + PermsFrom(mask, i + 1)
  }

  /** The first k known permissions that are among perms. */
  function Known(perms: seq<string>, i: nat): seq<string>
    requires i <= 4
    decreases 4 - i
  {
    if i == 4 then []
    else (if ALL_PERMISSIONS[i] in perms then [ALL_PERMISSIONS[i]] else []) + Known(perms, i + 1)
  }

  function MaskOf(perms: seq<string>, i: nat): nat
    requires i <= 4
  {
    if i == 0 then 0
    else MaskOf(perms, i - 1) + if ALL_PERMISSIONS[i - 1] in perms then Pow(2, i - 1) else 0
  }

  lemma Powers()
    ensures Pow(2, 0) == 1 && Pow(2, 1) == 2 && Pow(2, 2) == 4 && Pow(2, 3) == 8 && Pow(2, 4) == 16
  {
  }

  method ComputePermMask(perms: seq<string>) returns (mask: nat)
    ensures mask == PermMask(perms)
  {
    mask := 0;
    var i, bit := 0, 1;
    while i < |ALL_PERMISSIONS|
      invariant 0 <= i <= 4 && bit == Pow(2, i)
      invariant mask == MaskOf(perms, i)
    {
      if ALL_PERMISSIONS[i] in perms {
        mask := mask + bit;
      }
      i, bit := i + 1, 2 * bit;
    }
    Powers();
    assert MaskOf(perms, 1) == MaskOf(perms, 0) + if ALL_PERMISSIONS[0] in perms then 1 else 0;
    assert MaskOf(perms, 2) == MaskOf(perms, 1) + if ALL_PERMISSIONS[1] in perms then 2 else 0;
    assert MaskOf(perms, 3) == MaskOf(perms, 2) + if ALL_PERMISSIONS[2] in perms then 4 else 0;
  }

  lemma PermsStep(mask: int, i: nat, perms: seq<string>, name: string)
    requires i < 4 && name == ALL_PERMISSIONS[i]
    ensures perms + PermsFrom(mask, i) == (if Bit(mask, i) then perms + [name] else perms) + PermsFrom(mask, i + 1)
  {
    var rest := PermsFrom(mask, i + 1);
    assert (perms + [name]) + rest == perms + ([name] + rest);
    assert [] + rest == rest;
  }

  method ComputePermsFromMask(mask: int) returns (perms: seq<string>)
    ensures perms == PermsFrom(mask, 0)
  {
    perms := [];
    var i := 0;
    while i < |ALL_PERMISSIONS|
      invariant 0 <= i <= 4
      invariant perms + PermsFrom(mask, i) == PermsFrom(mask, 0)
    {
      PermsStep(mask, i, perms, ALL_PERMISSIONS[i]);
      if Bit(mask, i) {
        perms := perms + [ALL_PERMISSIONS[i]];
      }
      i := i + 1;
    }
  }

  lemma {:induction false} SameBits(mask: int, perms: seq<string>, i: nat)
    requires i <= 4
    requires forall k :: i <= k < 4 ==> (Bit(mask, k) <==> ALL_PERMISSIONS[k] in perms)
    ensures PermsFrom(mask, i) == Known(perms, i)
    decreases 4 - i
  {
    if i < 4 {
      SameBits(mask, perms, i + 1);
    }
  }

  /** Encoding and decoding keep exactly the known permissions, in their
      fixed order and once each. */
  lemma PermsRoundTrip(perms: seq<string>)
    ensures PermsFrom(PermMask(perms), 0) == Known(perms, 0)
  {
    Powers();
    var mask := PermMask(perms);
    forall i | 0 <= i < 4
      ensures Bit(mask, i) <==> ALL_PERMISSIONS[i] in perms
    {
      assert i == 0 || i == 1 || i == 2 || i == 3;
    }
    SameBits(mask, perms, 0);
  }

  lemma {:induction false} KnownExactly(perms: seq<string>, i: nat, k: nat)
    requires i <= 4 && k < 4
    ensures ALL_PERMISSIONS[k] in Known(perms, i) <==> i <= k && ALL_PERMISSIONS[k] in perms
    decreases 4 - i
  {
    if i < 4 {
      KnownExactly(perms, i + 1, k);
      assert i != k ==> ALL_PERMISSIONS[i] != ALL_PERMISSIONS[k] by {
        assert |ALL_PERMISSIONS[0]| == 13 && |ALL_PERMISSIONS[1]| == 14
          && |ALL_PERMISSIONS[2]| == 10 && |ALL_PERMISSIONS[3]| == 21;
      }
    }
  }

  /** Which bit stands for which permission: that of the i-th known one is worth the
      i-th power of two. */
  lemma MaskMeans(perms: seq<string>, i: nat)
    requires i < 4
    ensures (PermMask(perms) / Pow(2, i)) % 2 == 1 <==> ALL_PERMISSIONS[i] in perms
  {
    Powers();
    assert i == 0 || i == 1 || i == 2 || i == 3;
  }

  /** And back. */
  lemma ListedMeans(mask: int, i: nat)
    requires i < 4
    ensures ALL_PERMISSIONS[i] in PermsFrom(mask, 0) <==> (mask / Pow(2, i)) % 2 == 1
  {
    var listed := seq(4, k requires 0 <= k < 4 => if Bit(mask, k) then ALL_PERMISSIONS[k] else "");
    assert |ALL_PERMISSIONS[0]| == 13 && |ALL_PERMISSIONS[1]| == 14
          && |ALL_PERMISSIONS[2]| == 10 && |ALL_PERMISSIONS[3]| == 21;
    forall k | 0 <= k < 4
      ensures ALL_PERMISSIONS[k] in listed <==> Bit(mask, k)
    {
      assert Bit(mask, k) ==> listed[k] == ALL_PERMISSIONS[k];
    }
    SameBits(mask, listed, 0);
    KnownExactly(listed, 0, i);
  }

  lemma DivUnique(n: int, d: nat, q: int, r: int)
    requires d in {4, 8, 16} && n == d * q + r && 0 <= r < d
    ensures n / d == q && n % d == r
  {
  }

  lemma LowBits(mask: int)
    ensures mask % 16 == mask % 2 + 2 * ((mask / 2) % 2) + 4 * ((mask / 4) % 2) + 8 * ((mask / 8) % 2)
  {
    var half := mask / 2;
    var quarter := half / 2;
    var eighth := quarter / 2;
    var low2 := mask % 2 + 2 * (half % 2);
    var low3 := low2 + 4 * (quarter % 2);
    DivUnique(mask, 4, quarter, low2);
    DivUnique(mask, 8, eighth, low3);
    DivUnique(mask, 16, eighth / 2, low3 + 8 * (eighth % 2));
  }

  /** Only the low four bits of a mask mean anything, and those survive. */
  lemma MaskRoundTrip(mask: int)
    ensures PermMask(PermsFrom(mask, 0)) == mask % 16
  {
    Powers();
    var listed := seq(4, i requires 0 <= i < 4 => if Bit(mask, i) then ALL_PERMISSIONS[i] else "");
    assert |ALL_PERMISSIONS[0]| == 13 && |ALL_PERMISSIONS[1]| == 14
          && |ALL_PERMISSIONS[2]| == 10 && |ALL_PERMISSIONS[3]| == 21;
    forall k | 0 <= k < 4
      ensures ALL_PERMISSIONS[k] in listed <==> Bit(mask, k)
    {
      assert Bit(mask, k) ==> listed[k] == ALL_PERMISSIONS[k];
    }
    SameBits(mask, listed, 0);
    KnownExactly(listed, 0, 0); KnownExactly(listed, 0, 1); KnownExactly(listed, 0, 2); KnownExactly(listed, 0, 3);
    LowBits(mask);
  }

  // ---------- The permission wizard ----------

  datatype Purpose = EditModerator | AssignNew | Invitation

  function PurposeCode(p: Purpose): string {
    match p
    case EditModerator => "e"
    case AssignNew => "a"
    case Invitation => "i"
  }

  function PurposeOf(code: string): Option<Purpose> {
    if code == "e" then Some(EditModerator)
    else if code == "a" then Some(AssignNew)
    else if code == "i" then Some(Invitation)
    else None
  }

  function WizardSubject(p: Purpose, user: int): string {
    if p.Invitation? then [] else FormatInt(user, 36)
  }

  /** What follows the action name in a toggle, confirm or apply payload. */
  function WizardMaskFields(p: Purpose, subject: string, mask: int): string {
    PurposeCode(p) + ":" + subject + ":" + FormatInt(mask, 16)
  }

  datatype Wizard = Wizard(purpose: Purpose, subject: string, rest: seq<string>)

  function ParseWizard(data: string): Option<Wizard> {
    var parts := Split(data, ':');
    if |parts| < 2 then None
    else
      var p := PurposeOf(parts[0]);
      if p.None? then None else Some(Wizard(p.value, parts[1], parts[2..]))
  }

  function ParseMask(raw: string): Option<int> {
    var v := ParseInt(raw, 16);
    if v.None? || v.value < 0 || v.value > 15 then None else v
  }

  lemma SplitThree(a: string, b: string, c: string, sep: char)
    requires Free(a, sep) && Free(b, sep) && Free(c, sep)
    ensures Split(a + [sep] + b + [sep] + c, sep) == [a, b, c]
  {
    assert a + [sep] + b + [sep] + c == a + [sep] + (b + [sep] + c);
    SplitAt(a, sep, b + [sep] + c);
    SplitAt(b, sep, c);
    SplitFree(c, sep);
  }

  /** A wizard button brings back its purpose, its user and its mask; a mask
      that is not one is refused rather than truncated. */
  lemma WizardRoundTrip(p: Purpose, user: int, mask: int)
    requires IsInt64(user) && IsInt64(mask)
    ensures var w := ParseWizard(WizardMaskFields(p, WizardSubject(p, user), mask));
            && w.Some? && w.value.purpose == p
            && WizardMaskFields(p, WizardSubject(p, user), mask)[0] ==
                 (match p case EditModerator => 'e' case AssignNew => 'a' case Invitation => 'i')
            && (if p.Invitation? then w.value.subject == [] else ParseInt(w.value.subject, 36) == Some(user))
            && |w.value.rest| == 1
            && ParseMask(w.value.rest[0]) == if 0 <= mask <= 15 then Some(mask) else None
  {
    var subject, hex := WizardSubject(p, user), FormatInt(mask, 16);
    FormatIntFree(user, 36, ':');
    FormatIntFree(mask, 16, ':');
    SplitThree(PurposeCode(p), subject, hex, ':');
    ParseFormatInt(user, 36);
    ParseFormatInt(mask, 16);
  }
}
