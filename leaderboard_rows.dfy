/** The "Top 10 Warlords" table: which leaderboard entries are shown and what
    each row displays (badge, flames, avatar initial, name, invites, payout). */
module LeaderboardRows {
  import opened Wrappers
  import opened ReferralData
  import RewardTier

  /** How many entries the table shows at most (`slice(0, 10)`). */
  const MaxRows: nat := 10

  /** The flame emoji, one code point. */
  const FlameIcon: string := "\U{1F525}"

  /** `topReferrers.slice(0, 10)`: the first min(10, n) entries, in order. */
  function VisibleRows(entries: seq<LeaderboardEntry>): (rows: seq<LeaderboardEntry>)
    ensures |rows| == if |entries| < MaxRows then |entries| else MaxRows
    ensures forall i :: 0 <= i < |rows| ==> rows[i] == entries[i]
  {
    if |entries| <= MaxRows then entries else entries[..MaxRows]
  }

  /** The first cell: medals for the top three, `#position` below them. */
  datatype Badge = Crown | SecondMedal | ThirdMedal | Numbered(position: nat)

  function RowBadge(index: nat): (b: Badge)
    ensures b == Crown <==> index == 0
    ensures b == SecondMedal <==> index == 1
    ensures b == ThirdMedal <==> index == 2
    ensures b.Numbered? <==> index > 2
    ensures b.Numbered? ==> b.position == index + 1
  {
    if index == 0 then Crown
    else if index == 1 then SecondMedal
    else if index == 2 then ThirdMedal
    else Numbered(index + 1)
  }

  // ---------------------------------------------------------------------------
  // Flames
  // ---------------------------------------------------------------------------

  /** `String.prototype.repeat`: a negative count throws a RangeError (`None`). */
  function Repeat(s: string, count: int): (r: Option<string>)
    ensures r.None? <==> count < 0
    ensures r.Some? ==> |r.value| == count * |s|
    ensures r.Some? && count > 0 ==> r.value[..|s|] == s
    ensures r.Some? && |s| == 1 ==> forall k :: 0 <= k < |r.value| ==> r.value[k] == s[0]
    decreases if count < 0 then 0 else count
  {
    if count < 0 then None
    else if count == 0 then Some("")
    else Some(s + Repeat(s, count - 1).value)
  }

  /** `Math.min(4, 5 - index)`, as the row cell computes it. */
  function FlameCountAsWritten(index: int): (n: int)
    ensures n <= 4
    ensures index <= 1 ==> n == 4
    ensures n < 0 <==> index >= 6
    ensures index >= 1 ==> n == 5 - index
  {
    if 5 - index < 4 then 5 - index else 4
  }

  /** The flame cell as written: a RangeError for every index from 6 on. */
  function FlamesAsWritten(index: int): Option<string>
  {
    Repeat(FlameIcon, FlameCountAsWritten(index))
  }

  /** The flame count as written goes negative exactly from index 6. */
  lemma FlamesAsWrittenThrowFromSeventhRow(index: int)
    requires index >= 0
    ensures FlamesAsWritten(index).None? <==> index >= 6
  {
  }

  /** The intended flame count: four, then one fewer per row, never below zero. */
  function FlameCount(index: int): (n: nat)
    ensures n == Max(0, FlameCountAsWritten(index))
  {
    if index >= 5 then 0 else FlameCountAsWritten(index)
  }

  /** The intended flame cell: defined for every row. */
  function Flames(index: int): (r: string)
    ensures |r| == FlameCount(index)
    ensures forall k :: 0 <= k < |r| ==> r[k] == FlameIcon[0]
  {
    Repeat(FlameIcon, FlameCount(index)).value
  }

  /** Where the cell as written renders, the corrected one renders the same text. */
  lemma FlamesAgreeWhereDefined(index: int)
    requires FlamesAsWritten(index).Some?
    ensures FlamesAsWritten(index) == Some(Flames(index))
  {
  }

  /** Down the table the corrected flame count never grows. */
  lemma FlamesNonIncreasing(i: int, j: int)
    requires i <= j
    ensures FlameCount(i) >= FlameCount(j)
  {
  }

  // ---------------------------------------------------------------------------
  // Names
  // ---------------------------------------------------------------------------

  function Min(a: int, b: int): int
  {
    if a < b then a else b
  }

  function Max(a: int, b: int): int
  {
    if a < b then b else a
  }

  /** `s.slice(begin, end)` for non-negative bounds. */
  function Slice(s: string, begin: nat, end: nat): (r: string)
    ensures |r| == if Min(begin, |s|) <= Min(end, |s|) then Min(end, |s|) - Min(begin, |s|) else 0
    ensures forall i :: 0 <= i < |r| ==> r[i] == s[begin + i]
  {
    var b := Min(begin, |s|);
    var e := Min(end, |s|);
    if b <= e then s[b..e] else ""
  }

  /** `s.slice(-n)`: for n >= 1 the last n characters, or all of `s` when it
      is shorter; `-0` is `0`, so `s.slice(-0)` is the whole of `s`. */
  function SliceLast(s: string, n: nat): (r: string)
    ensures n == 0 ==> r == s
    ensures n > 0 ==> |r| == Min(n, |s|)
    ensures forall i :: 0 <= i < |r| ==> r[i] == s[|s| - |r| + i]
  {
    if n == 0 then s else s[|s| - Min(n, |s|)..]
  }

  /** `username || wallet.slice(0, 6) + "..." + wallet.slice(-4)`. */
  function DisplayName(e: LeaderboardEntry): (name: string)
    ensures Truthy(e.username) ==> name == e.username.value
    ensures !Truthy(e.username) ==>
      && |name| == Min(6, |e.wallet|) + 3 + Min(4, |e.wallet|)
      && name[..Min(6, |e.wallet|)] == e.wallet[..Min(6, |e.wallet|)]
      && name[Min(6, |e.wallet|)..Min(6, |e.wallet|) + 3] == "..."
      && name[|name| - Min(4, |e.wallet|)..] == e.wallet[|e.wallet| - Min(4, |e.wallet|)..]
  {
    if Truthy(e.username) then e.username.value
    else Slice(e.wallet, 0, 6) + "..." + SliceLast(e.wallet, 4)
  }

  /** `toUpperCase` on one character, for ASCII letters only. */
  function AsciiUpper(c: char): (u: char)
    ensures 'a' <= c <= 'z' ==> 'A' <= u <= 'Z' && u as int - 'A' as int == c as int - 'a' as int
    ensures !('a' <= c <= 'z') ==> u == c
  {
    if 'a' <= c <= 'z' then (c as int - 'a' as int + 'A' as int) as char else c
  }

  /** `(username || wallet.slice(2, 4)).charAt(0).toUpperCase()`. */
  function AvatarInitial(e: LeaderboardEntry): (r: string)
    ensures |r| <= 1
    ensures Truthy(e.username) ==> r == [AsciiUpper(e.username.value[0])]
    ensures !Truthy(e.username) ==> (r == [] <==> |e.wallet| <= 2)
    ensures !Truthy(e.username) && |e.wallet| > 2 ==> r == [AsciiUpper(e.wallet[2])]
  {
    var source := if Truthy(e.username) then e.username.value else Slice(e.wallet, 2, 4);
    if source == "" then "" else [AsciiUpper(source[0])]
  }

  // ---------------------------------------------------------------------------
  // Payout column and whole rows
  // ---------------------------------------------------------------------------

  /** `getProjectedReward(index + 1)`: by position, not by the entry's own rank. */
  function RowPayout(index: nat): nat
  {
    RewardTier.GetProjectedReward(Some(index + 1))
  }

  /** The payout column never grows down the table, and it matches an entry's
      own projected reward whenever that entry's rank is its position. */
  lemma RowPayoutByPosition(rows: seq<LeaderboardEntry>, i: nat, j: nat)
    requires i <= j < |rows|
    ensures RowPayout(i) >= RowPayout(j)
    ensures rows[i].rank == i + 1 ==> RowPayout(i) == RewardTier.GetProjectedReward(Some(rows[i].rank))
  {
    RewardTier.PayoutNonIncreasing(i + 1, j + 1);
  }

  /** What one table row shows. */
  datatype Row = Row(
    key: string,
    badge: Badge,
    flames: string,
    initial: string,
    name: string,
    invites: int,
    payout: nat)

  /** Row `index` as written: `None` when its flame cell throws. */
  function RenderRowAsWritten(e: LeaderboardEntry, index: nat): (r: Option<Row>)
    ensures r.None? <==> index >= 6
    ensures r.Some? ==> r.value == RenderRow(e, index)
  {
    match FlamesAsWritten(index)
    case None => None
    case Some(flames) =>
      FlamesAgreeWhereDefined(index);
      Some(Row(e.wallet, RowBadge(index), flames, AvatarInitial(e), DisplayName(e), e.referralsCount, RowPayout(index)))
  }

  /** Row `index` with the corrected flame count. */
  function RenderRow(e: LeaderboardEntry, index: nat): Row
  {
    Row(e.wallet, RowBadge(index), Flames(index), AvatarInitial(e), DisplayName(e), e.referralsCount, RowPayout(index))
  }

  /** Rows `from` onwards of the visible table as written; one throwing cell
      aborts the whole render. */
  function RenderRowsAsWrittenFrom(rows: seq<LeaderboardEntry>, from: nat): (r: Option<seq<Row>>)
    requires from <= |rows|
    ensures r.None? <==> |rows| > 6 && from <= |rows| - 1
    ensures r.Some? ==> |r.value| == |rows| - from
    decreases |rows| - from
  {
    if from == |rows| then Some([])
    else
      match RenderRowAsWritten(rows[from], from)
      case None => None
      case Some(row) =>
        match RenderRowsAsWrittenFrom(rows, from + 1)
        case None => None
        case Some(rest) => Some([row] + rest)
  }

  /** The table as written: it fails to render once the leaderboard has seven or more entries. */
  function RenderTableAsWritten(entries: seq<LeaderboardEntry>): (r: Option<seq<Row>>)
    ensures r.None? <==> |entries| >= 7
    ensures r.Some? ==> |r.value| == |entries|
  {
    RenderRowsAsWrittenFrom(VisibleRows(entries), 0)
  }

  /** The corrected table: `slice(0, 10).map((referrer, index) => ...)` with
      the flame count clamped at zero. */
  function RenderTable(entries: seq<LeaderboardEntry>): (r: seq<Row>)
    ensures |r| == Min(MaxRows, |entries|)
    ensures forall i :: 0 <= i < |r| ==> r[i] == RenderRow(entries[i], i)
  {
    var rows := VisibleRows(entries);
    seq(|rows|, i requires 0 <= i < |rows| => RenderRow(rows[i], i))
  }

  /** Where the table as written renders, the corrected table shows the same rows. */
  lemma TablesAgreeWhereDefined(entries: seq<LeaderboardEntry>)
    requires RenderTableAsWritten(entries).Some?
    ensures RenderTableAsWritten(entries) == Some(RenderTable(entries))
  {
    assert VisibleRows(entries) == entries;
    TablesAgreeFrom(entries, 0);
    assert RenderTable(entries)[0..] == RenderTable(entries);
  }

  lemma {:induction false} TablesAgreeFrom(rows: seq<LeaderboardEntry>, from: nat)
    requires from <= |rows| <= 6
    ensures RenderRowsAsWrittenFrom(rows, from) == Some(RenderTable(rows)[from..])
    decreases |rows| - from
  {
    if from < |rows| {
      var table := RenderTable(rows);
      var row := RenderRow(rows[from], from);
      TablesAgreeFrom(rows, from + 1);
      assert table[from..] == [row] + table[from + 1..] by {
        assert table[from] == row;
      }
      assert RenderRowsAsWrittenFrom(rows, from) == Some([row] + table[from + 1..]) by {
        assert RenderRowAsWritten(rows[from], from) == Some(row);
      }
    } else {
      assert RenderTable(rows)[from..] == [];
    }
  }
}
