# Referral modal: reward tiers, link guard and leaderboard rows

A Dafny model of the logic inside the referral-leaderboard modal of a
social-engagement rewards front end (`src/components/ReferralModal.tsx`). The modal shows
a user's referral standing, the reward tier and projected token payout their rank
earns from a 50,000,000-token pool, a copy button for their referral link, and the top
ten referrers.

Modules (one per concern of the component):

- `Wrappers` — `Option`, standing in for `T | null`.
- `ReferralData` — the `ReferralStats` and `LeaderboardEntry` records, and JavaScript
  truthiness of an optional string.
- `RewardTier` — `getRewardTier` and `getProjectedReward`: two separate
  first-match-wins ladders over a rank `Option<int>`. `null` and `0` are falsy, so they
  count as unranked. A negative rank is truthy and lands in the `<= 5` branch. Percents
  are a datatype carrying the label shown and its value in basis points (20% = 2000,
  0.01% = 1). The displayed payout-structure table (lines 323-346) is modelled as an
  independent reference `Brackets`, and both ladders are proved against it. Also proved:
  - up to rank 5000 the payout is exactly the tier's percent of the pool;
  - above 5000 the two ladders part ways: the tier still says 0.01%, the payout is 0;
  - paying ranks 1..5000 takes 115,000,000 tokens (230% of the pool), which is more
    than the pool the modal names at line 228. This is a fact the lemma documents, not
    something the code promises.
- `ReferralLink` — `copyReferralLink`. The page origin and the clipboard's answer are
  inputs. Absent stats, or a code that is empty, `"loading..."` or `"error"`, are
  rejected with the source's toast text. Otherwise the link is `origin + "?ref=" + code`
  with no URL encoding. A failed copy shows that same link in its error toast.
- `ModalState` — the component's `stats`, `topReferrers` and `copied` state as a record,
  and the functions that replace it:
  - when the stats request settles: the JSON body, or a placeholder with code
    `"loading..."` (non-OK status) or `"error"` (exception);
  - when the leaderboard request settles: `data.leaderboard || []`, or no change on
    failure;
  - after a click on the copy button.
- `LeaderboardRows` — the rows of the top-ten table: which entries show, the badge, the
  flame cell, the avatar initial, the name and the payout column (by position).

Behaviour the model keeps as the code has it:
- the placeholder codes are `"loading..."` and `"error"`;
- a failed leaderboard request keeps the previous list rather than emptying it;
- ranks `0` and negative ranks are accepted and handled as the ladders' guards handle
  them;
- late results are not discarded: nothing tags a request with the opening it belongs to.

## Model

| member | source | states |
|---|---|---|
| `RewardTier.BracketsWellFormed` | src/components/ReferralModal.tsx:323-346 | the displayed payout table starts at rank 1, its rows follow each other without gap or overlap, the last is unbounded, and each row's payout is its percent of the 50,000,000 pool |
| `RewardTier.GetRewardTier` | src/components/ReferralModal.tsx:137-145 | the colour always matches the percent; 0.01% exactly when unranked (`null`/`0`) or ranked above 500; 20% exactly for rank 1. Per bracket: `TierFollowsTable`, `UnrankedGetsFloor`, `NegativeRankLandsInTenPercent` |
| `RewardTier.GetProjectedReward` | src/components/ReferralModal.tsx:147-155 | zero exactly when unranked or ranked above 5000; never above 10,000,000, reached only by rank 1. Per bracket: `PayoutFollowsTableUpToCutoff`, `UnrankedGetsFloor`, `NegativeRankLandsInTenPercent` |
| `RewardTier.BracketIndex` | src/components/ReferralModal.tsx:323-346 | every rank at or after a row's start is found in some row of the table, and no earlier row holds it |
| `RewardTier.BracketIsUnique` | src/components/ReferralModal.tsx:323-346 | no rank lies in two rows of the table |
| `RewardTier.TierFollowsTable` | src/components/ReferralModal.tsx:137-145 | for every positive rank, `getRewardTier` gives the percent of the one table row holding it (1: 20%, 2-5: 10%, 6-20: 3%, 21-100: 0.5%, 101-500: 0.1%, 501+: 0.01%) |
| `RewardTier.PayoutFollowsTableUpToCutoff` | src/components/ReferralModal.tsx:147-155 | for ranks 1..5000 `getProjectedReward` pays the table row's payout (10M, 5M, 1.5M, 250K, 50K, 5K); above 5000 it pays 0 although the table row says 5,000 |
| `RewardTier.PayoutIsPoolShare` | src/components/ReferralModal.tsx:137-155 | for ranks 1..5000 payout × 10,000 = tier basis points × 50,000,000: the payout is the tier's percent of the pool |
| `RewardTier.PayoutDropsAboveCutoff` | src/components/ReferralModal.tsx:137-155 | above rank 5000 the tier is still 0.01% (grey) while the payout is 0, so payout and percent no longer agree |
| `RewardTier.UnrankedGetsFloor` | src/components/ReferralModal.tsx:137-148 | a `null` or `0` rank gives 0.01% and payout 0 |
| `RewardTier.NegativeRankLandsInTenPercent` | src/components/ReferralModal.tsx:137-150 | a negative rank passes the falsy check and gets 10% (orange) and 5,000,000 in both ladders |
| `RewardTier.PayoutNonIncreasing` | src/components/ReferralModal.tsx:147-155 | over positive ranks, r1 ≤ r2 implies payout(r1) ≥ payout(r2) |
| `RewardTier.TierNonIncreasing` | src/components/ReferralModal.tsx:137-145 | over positive ranks, r1 ≤ r2 implies percent(r1) ≥ percent(r2) |
| `RewardTier.SumOfConstantRun` | src/components/ReferralModal.tsx:147-155 | a run of ranks with one payout sums to run length × payout |
| `RewardTier.SumSplit` | src/components/ReferralModal.tsx:147-155 | a sum over ranks splits at any intermediate rank |
| `RewardTier.SumOfSixRuns` | src/components/ReferralModal.tsx:147-155 | a sum over six consecutive constant runs (the ladder's brackets) is the sum of length × value |
| `RewardTier.PayoutsOvercommitPool` | src/components/ReferralModal.tsx:147-155 | the payouts of ranks 1..5000 add up to 115,000,000, more than the 50,000,000 pool named at line 228 |
| `RewardTier.PercentsExceedWhole` | src/components/ReferralModal.tsx:137-145 | the percents of ranks 1..5000 add up to 230% |
| `ReferralLink.CopyReferralLink` | src/components/ReferralModal.tsx:106-135 | rejected as "not loaded" exactly when there are no stats; a link exists exactly when the code is not empty, `"loading..."` or `"error"`; the link is `origin + "?ref=" + code`; it is copied exactly when the clipboard accepts; every outcome carries the source's toast text (not loaded, not ready, copied, or the failure prefix plus that link); a not-ready message names the code or "missing" |
| `ReferralLink.ReferralUrl` | src/components/ReferralModal.tsx:121 | the link is the origin, then `?ref=`, then the code, with nothing encoded |
| `ReferralLink.NotReadyMessage` | src/components/ReferralModal.tsx:116 | the not-ready toast is the source's text around the code, or around "missing" when the code is empty |
| `ReferralLink.CodeFromUrl` | src/components/ReferralModal.tsx:121 | a code read back from a link of the origin rebuilds that very link |
| `ReferralLink.UrlRoundTrip` | src/components/ReferralModal.tsx:121 | reading the code back from a built link gives the code, so distinct codes give distinct links |
| `ReferralLink.FailedCopyShowsSameLink` | src/components/ReferralModal.tsx:120-134 | when a copy would succeed, a failing clipboard gives the same link, shown after the error prefix |
| `ReferralLink.DisplayedUrl` | src/components/ReferralModal.tsx:196 | the link the modal displays carries the stats' code whenever that code is non-empty, and is `origin?ref=...` when stats are absent or the code is empty |
| `ReferralLink.CopiedLinkIsDisplayed` | src/components/ReferralModal.tsx:196 | whenever a copy yields a link it is the link on screen |
| `ModalState.AfterStatsFetch` | src/components/ReferralModal.tsx:64-90 | stats are always set afterwards; OK gives the body; non-OK gives code `"loading..."`, exception gives `"error"`, both with 0 referrals, no rank and 1 user; the leaderboard and `copied` are untouched |
| `ModalState.FallbackStats` | src/components/ReferralModal.tsx:73-88 | the placeholder stats of a failed request; `AfterStatsFetch` pins their fields, `FailedStatsBlockCopy` shows the copy guard rejects them and `FailedStatsShowFloorTier` shows they rank as unranked |
| `ModalState.AfterLeaderboardFetch` | src/components/ReferralModal.tsx:92-104 | OK gives `data.leaderboard`, or `[]` when it is missing; any failure leaves the state unchanged; stats and `copied` are untouched |
| `ModalState.AfterCopyClick` | src/components/ReferralModal.tsx:120-127 | the outcome is the copy guard's; `copied` becomes true only on a successful copy; stats and leaderboard are untouched |
| `ModalState.DisplayedRank` | src/components/ReferralModal.tsx:157 | the rank handed to both ladders is a non-zero rank of the stats, and is the stats' rank whenever that is truthy |
| `ModalState.FetchOrderIrrelevant` | src/components/ReferralModal.tsx:54-57 | the two requests under `Promise.all` write disjoint fields: either settling order gives the same state |
| `ModalState.FailedStatsBlockCopy` | src/components/ReferralModal.tsx:64-118 | after a failed stats request the copy guard rejects the placeholder code, and `copied` is not set |
| `ModalState.NothingToCopyInitially` | src/components/ReferralModal.tsx:110-113 | from the initial state a click only reports "not loaded" and changes nothing |
| `ModalState.FailedStatsShowFloorTier` | src/components/ReferralModal.tsx:73-88 | a failed stats request leaves no rank, hence tier 0.01% and payout 0 |
| `ModalState.DisplayedRankKeepsLadders` | src/components/ReferralModal.tsx:157 | folding rank `0` into `null` changes neither ladder's answer |
| `LeaderboardRows.VisibleRows` | src/components/ReferralModal.tsx:262 | the table shows the first min(10, n) entries, in order |
| `LeaderboardRows.RowBadge` | src/components/ReferralModal.tsx:268-271 | the crown exactly for index 0, the second medal exactly for 1, the third exactly for 2, and `#(index+1)` for every later index |
| `LeaderboardRows.Repeat` | src/components/ReferralModal.tsx:275 | `repeat` throws exactly on a negative count; otherwise its length is count × the string's length, it starts with the string, and a one-character string is repeated throughout |
| `LeaderboardRows.FlameCountAsWritten` | src/components/ReferralModal.tsx:275 | `Math.min(4, 5 - index)` is 4 for indexes 0 and 1 (and below), `5 - index` from index 1 on, never above 4, and negative exactly from index 6 |
| `LeaderboardRows.FlamesAsWritten` | src/components/ReferralModal.tsx:275 | the flame cell as written; `FlamesAsWrittenThrowFromSeventhRow` shows it throws exactly from index 6 |
| `LeaderboardRows.FlamesAsWrittenThrowFromSeventhRow` | src/components/ReferralModal.tsx:275 | the flame cell as written throws exactly from index 6 on |
| `LeaderboardRows.FlameCount` | src/components/ReferralModal.tsx:275 | the corrected count is the count as written clamped at zero: max(0, min(4, 5 - index)) |
| `LeaderboardRows.Flames` | src/components/ReferralModal.tsx:275 | the corrected cell holds exactly `FlameCount(index)` characters, each of them the flame |
| `LeaderboardRows.FlamesAgreeWhereDefined` | src/components/ReferralModal.tsx:275 | wherever the cell as written renders, the corrected cell renders the same text |
| `LeaderboardRows.FlamesNonIncreasing` | src/components/ReferralModal.tsx:275 | the corrected flame count never grows down the table |
| `LeaderboardRows.Slice` | src/components/ReferralModal.tsx:282-286 | `slice(begin, end)` clamps both bounds to the length and returns the characters between them |
| `LeaderboardRows.SliceLast` | src/components/ReferralModal.tsx:286 | for n ≥ 1, `slice(-n)` returns the last min(n, length) characters; for n = 0, `slice(-0)` is `slice(0)`, the whole string |
| `LeaderboardRows.DisplayName` | src/components/ReferralModal.tsx:286 | a truthy username is shown as is; otherwise the wallet's first min(6, len) characters, `...`, and its last min(4, len) characters |
| `LeaderboardRows.AsciiUpper` | src/components/ReferralModal.tsx:282 | lower-case ASCII letters become their upper-case letter; other characters are kept |
| `LeaderboardRows.AvatarInitial` | src/components/ReferralModal.tsx:282 | at most one character: the upper-cased first letter of a truthy username, else the upper-cased third wallet character, else empty |
| `LeaderboardRows.RowPayout` | src/components/ReferralModal.tsx:298 | the payout cell of a row; `RowPayoutByPosition` shows it goes by position `index + 1`, never grows down the table, and matches the entry's own reward when its rank is its position |
| `LeaderboardRows.RowPayoutByPosition` | src/components/ReferralModal.tsx:298 | the payout column uses position `index + 1`, never grows down the table, and equals the entry's own projected reward when its rank is its position |
| `LeaderboardRows.RenderRowAsWritten` | src/components/ReferralModal.tsx:263-301 | a row as written fails exactly from index 6 on, and otherwise is the corrected row |
| `LeaderboardRows.RenderRow` | src/components/ReferralModal.tsx:263-301 | one row: wallet key, badge, corrected flames, avatar initial, name, invite count and positional payout; `RenderTable` and `TablesAgreeWhereDefined` state what the table built from it shows |
| `LeaderboardRows.RenderRowsAsWrittenFrom` | src/components/ReferralModal.tsx:262-302 | rendering as written from a row on fails exactly when more than six rows exist and some are left to render |
| `LeaderboardRows.RenderTableAsWritten` | src/components/ReferralModal.tsx:259-302 | the table as written fails to render exactly when the leaderboard holds seven or more entries |
| `LeaderboardRows.RenderTable` | src/components/ReferralModal.tsx:262-302 | the corrected table has min(10, n) rows, row i rendered from entry i at position i |
| `LeaderboardRows.TablesAgreeWhereDefined` | src/components/ReferralModal.tsx:262-302 | whenever the table as written renders, the corrected table shows the same rows |
| `LeaderboardRows.TablesAgreeFrom` | src/components/ReferralModal.tsx:262-302 | for at most six rows, rendering as written from any position gives the corrected table from that position on |

## Findings

| source | as written | input that shows it | evidently intended | confidence | as-written member | corrected member |
|---|---|---|---|---|---|---|
| src/components/ReferralModal.tsx:275 | the flame cell is `'🔥'.repeat(Math.min(4, 5 - index))`, while up to 10 rows render (line 262) | a leaderboard of 7 entries: at index 6 the count is -1 and `repeat` throws a RangeError, so the table does not render | fewer flames per row down to none, never a negative count (count clamped at 0 from index 5 on) | high; not executed | `LeaderboardRows.RenderTableAsWritten` | `LeaderboardRows.RenderTable` |

## Left out

- The open cycle in `useEffect` (lines 39-62) is not modelled: the `loading` flag, the 10-second timeout racing `Promise.all`, and the no-wallet short cut. Only the state each settled request writes is modelled.
- `fetch`, HTTP status codes and `res.json()` are not modelled; they are reduced to three outcomes: OK with a body, non-OK, or an exception. A malformed JSON body is taken to be a `ReferralStats` as is.
- `navigator.clipboard.writeText` is reduced to the boolean it settles to. `toast` is kept only as the message text, and `console` output is dropped.
- The 2-second timer that resets `copied` is not modelled.
- Rendering, layout and Tailwind classes are not modelled; the tier colour is an opaque tag.
- `window.location.origin` is a parameter.
- `toLocaleString` formatting of counts and payouts is left out because it depends on the locale.
- `LeaderboardRows.AsciiUpper`: `toUpperCase` is modelled for ASCII letters only; other case mappings, including ones that change the length, are left out.
- `LeaderboardRows.AvatarInitial`: strings are sequences of code points, while JavaScript's `charAt`, `slice` and `length` count UTF-16 code units. A username starting with an emoji gives that emoji here but a lone surrogate in JavaScript. The same applies to `DisplayName`'s slices, and the flame icon has length 1 here but 2 in JavaScript.
- `LeaderboardRows.Repeat`: counts are whole numbers; JavaScript's rounding of fractional counts and its length limit are left out.
- Ranks are integers; a fractional or `NaN` rank from the server is not modelled.
- `AdaptiveShareButton`, `Dialog` and `Link` are external components and are not part of this model.
- The `pfpUrl` and `displayName` fields of a leaderboard entry are never read by the modal, so they are not carried.
- `ReferralLink.CodeFromUrl` is the exact inverse of link construction. It does not model the URL parsing and decoding the landing page uses to read `?ref=`.
