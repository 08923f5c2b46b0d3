/** The reward-tier resolver of the referral modal: `getRewardTier` and
    `getProjectedReward`, two first-match-wins ladders over the user's rank,
    together with the payout-structure table the modal displays beside them. */
module RewardTier {
  import opened Wrappers

  /** The six percent labels `getRewardTier` can return. */
  datatype Percent =
    | TwentyPercent
    | TenPercent
    | ThreePercent
    | HalfPercent
    | TenthPercent
    | HundredthPercent
  {
    /** The label the modal shows. */
    function Label(): string
    {
      match this
      case TwentyPercent => "20%"
      case TenPercent => "10%"
      case ThreePercent => "3%"
      case HalfPercent => "0.5%"
      case TenthPercent => "0.1%"
      case HundredthPercent => "0.01%"
    }

    /** The same percentage in basis points (1 = 0.01%). */
    function BasisPoints(): nat
    {
      match this
      case TwentyPercent => 2000
      case TenPercent => 1000
      case ThreePercent => 300
      case HalfPercent => 50
      case TenthPercent => 10
      case HundredthPercent => 1
    }
  }

  /** The Tailwind text-colour class of a tier, carried as an opaque tag. */
  datatype Colour = Gray400 | Yellow400 | Orange400 | Pink400 | Purple400 | Blue400

  /** The colour each percent is shown in; both 0.01% branches use grey. */
  function ColourOf(p: Percent): Colour
  {
    match p
    case TwentyPercent => Yellow400
    case TenPercent => Orange400
    case ThreePercent => Pink400
    case HalfPercent => Purple400
    case TenthPercent => Blue400
    case HundredthPercent => Gray400
  }

  /** What `getRewardTier` returns: `{ percent, color }`. */
  datatype Tier = Tier(percent: Percent, color: Colour)

  /** The pool the percentages are taken of ("of 50,000,000 $ATTENTION pool"). */
  const PoolTokens: nat := 50_000_000

  /** Basis points in a whole. */
  const Whole: nat := 10_000

  /** The last rank `getProjectedReward` pays anything to. */
  const PayoutCutoff: int := 5000

  /** JavaScript truthiness of `rank: number | null`: `null` and `0` are falsy,
      every other number (negative ones included) is truthy. */
  predicate Ranked(rank: Option<int>)
  {
    rank.Some? && rank.value != 0
  }

  /** `getRewardTier`: the first guard that holds decides the tier. */
  function GetRewardTier(rank: Option<int>): (t: Tier)
    ensures t.color == ColourOf(t.percent)
    ensures t.percent == HundredthPercent <==> !Ranked(rank) || rank.value > 500
    ensures t.percent == TwentyPercent <==> rank == Some(1)
  {
    if !Ranked(rank) then Tier(HundredthPercent, Gray400)
    else if rank.value == 1 then Tier(TwentyPercent, Yellow400)
    else if rank.value <= 5 then Tier(TenPercent, Orange400)
    else if rank.value <= 20 then Tier(ThreePercent, Pink400)
    else if rank.value <= 100 then Tier(HalfPercent, Purple400)
    else if rank.value <= 500 then Tier(TenthPercent, Blue400)
    else Tier(HundredthPercent, Gray400)
  }

  /** `getProjectedReward`: the projected token payout, again first match wins. */
  function GetProjectedReward(rank: Option<int>): (tokens: nat)
    ensures tokens == 0 <==> !Ranked(rank) || rank.value > PayoutCutoff
    ensures tokens <= 10_000_000
    ensures tokens == 10_000_000 <==> rank == Some(1)
  {
    if !Ranked(rank) || rank.value > PayoutCutoff then 0
    else if rank.value == 1 then 10_000_000
    else if rank.value <= 5 then 5_000_000
    else if rank.value <= 20 then 1_500_000
    else if rank.value <= 100 then 250_000
    else if rank.value <= 500 then 50_000
    else 5_000
  }

  // ---------------------------------------------------------------------------
  // The payout-structure table the modal displays, as an independent reference
  // ---------------------------------------------------------------------------

  /** One row of the displayed payout structure: ranks `lo` to `hi` (no upper
      bound when `hi` is `None`) each earn `percent`, that is `payout` tokens. */
  datatype Bracket = Bracket(lo: int, hi: Option<int>, percent: Percent, payout: nat)

  const Brackets: seq<Bracket> := [
    Bracket(1, Some(1), TwentyPercent, 10_000_000),
    Bracket(2, Some(5), TenPercent, 5_000_000),
    Bracket(6, Some(20), ThreePercent, 1_500_000),
    Bracket(21, Some(100), HalfPercent, 250_000),
    Bracket(101, Some(500), TenthPercent, 50_000),
    Bracket(501, None, HundredthPercent, 5_000)
  ]

  predicate InBracket(r: int, b: Bracket)
  {
    b.lo <= r && (b.hi.None? || r <= b.hi.value)
  }

  /** The rows start at rank 1, each starts right after the previous one ends,
      and the last is unbounded: together they partition the positive ranks. */
  predicate Contiguous(bs: seq<Bracket>)
  {
    && |bs| > 0
    && bs[0].lo == 1
    && bs[|bs| - 1].hi.None?
    && (forall i :: 0 <= i < |bs| - 1 ==> bs[i].hi.Some? && bs[i].lo <= bs[i].hi.value)
    && (forall i :: 0 <= i < |bs| - 1 ==> bs[i + 1].lo == bs[i].hi.value + 1)
  }

  /** The displayed table is contiguous, and every row's payout is its percent of the pool. */
  lemma BracketsWellFormed()
    ensures Contiguous(Brackets)
    ensures forall i :: 0 <= i < |Brackets| ==>
      Brackets[i].payout * Whole == Brackets[i].percent.BasisPoints() * PoolTokens
  {
  }

  /** The row of the table that holds rank `r`, searching from row `from` on. */
  function BracketIndex(r: int, from: nat): (k: nat)
    requires from < |Brackets| && Brackets[from].lo <= r
    ensures from <= k < |Brackets| && InBracket(r, Brackets[k])
    ensures forall j :: from <= j < k ==> !InBracket(r, Brackets[j])
    decreases |Brackets| - from
  {
    BracketsWellFormed();
    if InBracket(r, Brackets[from]) then from
    else BracketIndex(r, from + 1)
  }

  /** Every positive rank lies in exactly one row of the table. */
  lemma BracketIsUnique(r: int, i: nat, j: nat)
    requires i < |Brackets| && j < |Brackets|
    requires InBracket(r, Brackets[i]) && InBracket(r, Brackets[j])
    ensures i == j
  {
    BracketsWellFormed();
    if i < j {
      OrderedBounds(i, j);
    } else if j < i {
      OrderedBounds(j, i);
    }
  }

  /** An earlier row ends before a later row starts. */
  lemma {:induction false} OrderedBounds(i: nat, j: nat)
    requires i < j < |Brackets|
    ensures Brackets[i].hi.Some? && Brackets[i].hi.value < Brackets[j].lo
    decreases j - i
  {
    BracketsWellFormed();
    if i + 1 < j {
      OrderedBounds(i + 1, j);
    }
  }

  /** For a positive rank, `getRewardTier` gives the percent of the table row
      that holds the rank. */
  lemma TierFollowsTable(r: int)
    requires r >= 1
    ensures GetRewardTier(Some(r)).percent == Brackets[BracketIndex(r, 0)].percent
  {
    var k := BracketIndex(r, 0);
    BracketIsUnique(r, k, RowOf(r));
  }

  /** For a rank up to the cut-off, `getProjectedReward` pays the table row's
      payout; above the cut-off it pays nothing although the table still
      promises that row's 5,000 tokens. */
  lemma PayoutFollowsTableUpToCutoff(r: int)
    requires r >= 1
    ensures r <= PayoutCutoff ==> GetProjectedReward(Some(r)) == Brackets[BracketIndex(r, 0)].payout
    ensures r > PayoutCutoff ==> GetProjectedReward(Some(r)) == 0 && Brackets[BracketIndex(r, 0)].payout == 5_000
  {
    var k := BracketIndex(r, 0);
    BracketIsUnique(r, k, RowOf(r));
  }

  /** The table row of a positive rank, read off the ladder's own thresholds. */
  function RowOf(r: int): (k: nat)
    requires r >= 1
    ensures k < |Brackets| && InBracket(r, Brackets[k])
  {
    if r == 1 then 0
    else if r <= 5 then 1
    else if r <= 20 then 2
    else if r <= 100 then 3
    else if r <= 500 then 4
    else 5
  }

  // ---------------------------------------------------------------------------
  // Properties of the two ladders
  // ---------------------------------------------------------------------------

  /** Up to the cut-off the payout is exactly the tier's percent of the pool. */
  lemma PayoutIsPoolShare(r: int)
    requires 1 <= r <= PayoutCutoff
    ensures GetProjectedReward(Some(r)) * Whole == GetRewardTier(Some(r)).percent.BasisPoints() * PoolTokens
  {
    BracketsWellFormed();
    TierFollowsTable(r);
    PayoutFollowsTableUpToCutoff(r);
  }

  /** Above the cut-off the two ladders disagree: the tier still reads 0.01%
      while the payout is zero. */
  lemma PayoutDropsAboveCutoff(r: int)
    requires r > PayoutCutoff
    ensures GetRewardTier(Some(r)) == Tier(HundredthPercent, Gray400)
    ensures GetProjectedReward(Some(r)) == 0
    ensures GetProjectedReward(Some(r)) * Whole != GetRewardTier(Some(r)).percent.BasisPoints() * PoolTokens
  {
  }

  /** Unranked (`null` or `0`) shows 0.01% and pays nothing. */
  lemma UnrankedGetsFloor(rank: Option<int>)
    requires rank.None? || rank == Some(0)
    ensures GetRewardTier(rank).percent == HundredthPercent
    ensures GetProjectedReward(rank) == 0
  {
  }

  /** A negative rank passes the falsy check, fails `=== 1` and lands on `<= 5`:
      10% and 5,000,000 tokens in both ladders. */
  lemma NegativeRankLandsInTenPercent(r: int)
    requires r < 0
    ensures GetRewardTier(Some(r)) == Tier(TenPercent, Orange400)
    ensures GetProjectedReward(Some(r)) == 5_000_000
  {
  }

  /** Over positive ranks a worse (larger) rank never pays more. */
  lemma PayoutNonIncreasing(r1: int, r2: int)
    requires 1 <= r1 <= r2
    ensures GetProjectedReward(Some(r1)) >= GetProjectedReward(Some(r2))
  {
  }

  /** Over positive ranks a worse rank never has a larger percent. */
  lemma TierNonIncreasing(r1: int, r2: int)
    requires 1 <= r1 <= r2
    ensures GetRewardTier(Some(r1)).percent.BasisPoints() >= GetRewardTier(Some(r2)).percent.BasisPoints()
  {
  }

  // ---------------------------------------------------------------------------
  // What the ladders promise in total
  // ---------------------------------------------------------------------------

  function PayoutAt(r: int): nat
  {
    GetProjectedReward(Some(r))
  }

  function BasisPointsAt(r: int): nat
  {
    GetRewardTier(Some(r)).percent.BasisPoints()
  }

  /** f(lo) + f(lo + 1) + ... + f(hi - 1). */
  function SumOver(f: int -> nat, lo: int, hi: int): nat
    decreases hi - lo
  {
    if hi <= lo then 0 else f(lo) + SumOver(f, lo + 1, hi)
  }

  lemma {:induction false} SumOfConstantRun(f: int -> nat, lo: int, hi: int, c: nat)
    requires lo <= hi
    requires forall r :: lo <= r < hi ==> f(r) == c
    ensures SumOver(f, lo, hi) == (hi - lo) * c
    decreases hi - lo
  {
    if lo < hi {
      SumOfConstantRun(f, lo + 1, hi, c);
    }
  }

  lemma {:induction false} SumSplit(f: int -> nat, lo: int, mid: int, hi: int)
    requires lo <= mid <= hi
    ensures SumOver(f, lo, hi) == SumOver(f, lo, mid) + SumOver(f, mid, hi)
    decreases mid - lo
  {
    if lo < mid {
      SumSplit(f, lo + 1, mid, hi);
    }
  }

  /** The sum of `f` over consecutive runs on each of which `f` is constant:
      lo = b0 < b1 < ... < b6 = hi, value c_i on [b_i, b_(i+1)). */
  lemma {:induction false} SumOfSixRuns(f: int -> nat, b: seq<int>, c: seq<nat>)
    requires |b| == 7 && |c| == 6
    requires forall i :: 0 <= i < 6 ==> b[i] <= b[i + 1]
    requires forall i, r :: 0 <= i < 6 && b[i] <= r < b[i + 1] ==> f(r) == c[i]
    ensures SumOver(f, b[0], b[6]) ==
      (b[1] - b[0]) * c[0] + (b[2] - b[1]) * c[1] + (b[3] - b[2]) * c[2] +
      (b[4] - b[3]) * c[3] + (b[5] - b[4]) * c[4] + (b[6] - b[5]) * c[5]
  {
    forall i | 0 <= i < 6
      ensures SumOver(f, b[i], b[i + 1]) == (b[i + 1] - b[i]) * c[i]
    {
      SumOfConstantRun(f, b[i], b[i + 1], c[i]);
    }
    SumSplit(f, b[4], b[5], b[6]);
    SumSplit(f, b[3], b[4], b[6]);
    SumSplit(f, b[2], b[3], b[6]);
    SumSplit(f, b[1], b[2], b[6]);
    SumSplit(f, b[0], b[1], b[6]);
  }

  /** The thresholds of the two ladders, as run boundaries. */
  function Thresholds(): seq<int>
  {
    [1, 2, 6, 21, 101, 501, PayoutCutoff + 1]
  }

  /** Paying every rank from 1 to the cut-off its projected reward takes
      115,000,000 tokens, more than twice the 50,000,000 pool. */
  lemma PayoutsOvercommitPool()
    ensures SumOver(PayoutAt, 1, PayoutCutoff + 1) == 115_000_000
    ensures SumOver(PayoutAt, 1, PayoutCutoff + 1) > PoolTokens
  {
    SumOfSixRuns(PayoutAt, Thresholds(), [10_000_000, 5_000_000, 1_500_000, 250_000, 50_000, 5_000]);
  }

  /** The percents of ranks 1 to the cut-off add up to 230% (23,000 basis points). */
  lemma PercentsExceedWhole()
    ensures SumOver(BasisPointsAt, 1, PayoutCutoff + 1) == 23_000
    ensures SumOver(BasisPointsAt, 1, PayoutCutoff + 1) > Whole
  {
    SumOfSixRuns(BasisPointsAt, Thresholds(), [2000, 1000, 300, 50, 10, 1]);
  }
}
