/** The referral modal's view state and how each settled request, and each
    click on the copy button, replaces it. Every update is a `setX(...)` call
    in the component, so each is a function from the old record to the new. */
module ModalState {
  import opened Wrappers
  import opened ReferralData
  import opened ReferralLink
  import RewardTier

  /** `stats`, `topReferrers` and `copied` of the component. */
  datatype ModalState = ModalState(
    stats: Option<ReferralStats>,
    topReferrers: seq<LeaderboardEntry>,
    copied: bool)

  /** The state the component starts from: no stats, no leaderboard, not copied. */
  const Initial: ModalState := ModalState(None, [], false)

  /** How the stats request settled: an OK response carrying its JSON body,
      a non-OK status, or an exception (transport or body parsing). */
  datatype StatsResponse =
    | StatsOk(data: ReferralStats)
    | StatsNotOk(status: int)
    | StatsThrew

  /** How the leaderboard request settled; an OK body may lack `leaderboard`. */
  datatype LeaderboardResponse =
    | LeaderboardOk(leaderboard: Option<seq<LeaderboardEntry>>)
    | LeaderboardNotOk(status: int)
    | LeaderboardThrew

  /** The placeholder stats a failed request leaves, so the modal is not empty. */
  function FallbackStats(code: string): ReferralStats
  {
    ReferralStats(code, 0, None, 1)
  }

  /** `fetchReferralStats` once its request has settled. */
  function AfterStatsFetch(s: ModalState, response: StatsResponse): (s': ModalState)
    ensures s'.topReferrers == s.topReferrers && s'.copied == s.copied
    ensures s'.stats.Some?
    ensures response.StatsOk? ==> s'.stats.value == response.data
    ensures !response.StatsOk? ==>
      s'.stats.value.referralsCount == 0 && s'.stats.value.rank.None? && s'.stats.value.totalUsers == 1
    ensures response.StatsNotOk? ==> s'.stats.value.refCode == LoadingCode
    ensures response.StatsThrew? ==> s'.stats.value.refCode == ErrorCode
  {
    match response
    case StatsOk(data) => s.(stats := Some(data))
    case StatsNotOk(_) => s.(stats := Some(FallbackStats(LoadingCode)))
    case StatsThrew => s.(stats := Some(FallbackStats(ErrorCode)))
  }

  /** `fetchTopReferrers` once its request has settled: `data.leaderboard || []`
      on success, and nothing changes on failure. */
  function AfterLeaderboardFetch(s: ModalState, response: LeaderboardResponse): (s': ModalState)
    ensures s'.stats == s.stats && s'.copied == s.copied
    ensures !response.LeaderboardOk? ==> s' == s
    ensures response.LeaderboardOk? && response.leaderboard.Some? ==> s'.topReferrers == response.leaderboard.value
    ensures response == LeaderboardOk(None) ==> s'.topReferrers == []
  {
    match response
    case LeaderboardOk(leaderboard) =>
      s.(topReferrers := if leaderboard.Some? then leaderboard.value else [])
    case LeaderboardNotOk(_) => s
    case LeaderboardThrew => s
  }

  /** A click on the copy button: `copied` becomes true only when the clipboard took the link. */
  function AfterCopyClick(s: ModalState, origin: string, clipboardAccepts: bool): (r: (ModalState, CopyOutcome))
    ensures r.1 == CopyReferralLink(s.stats, origin, clipboardAccepts)
    ensures r.0.stats == s.stats && r.0.topReferrers == s.topReferrers
    ensures r.0.copied <==> r.1.Copied? || s.copied
  {
    var outcome := CopyReferralLink(s.stats, origin, clipboardAccepts);
    (if outcome.Copied? then s.(copied := true) else s, outcome)
  }

  /** `stats?.rank || null`: the rank the modal passes to both ladders. */
  function DisplayedRank(stats: Option<ReferralStats>): (rank: Option<int>)
    ensures rank.Some? ==> stats.Some? && stats.value.rank == rank && rank.value != 0
    ensures stats.Some? && RewardTier.Ranked(stats.value.rank) ==> rank == stats.value.rank
  {
    if stats.Some? && RewardTier.Ranked(stats.value.rank) then stats.value.rank else None
  }

  /** The two requests run side by side under `Promise.all`; they write disjoint
      fields, so the order in which they settle does not matter. */
  lemma FetchOrderIrrelevant(s: ModalState, stats: StatsResponse, board: LeaderboardResponse)
    ensures AfterLeaderboardFetch(AfterStatsFetch(s, stats), board)
         == AfterStatsFetch(AfterLeaderboardFetch(s, board), stats)
  {
  }

  /** A failed stats request leaves exactly the placeholder codes the copy guard
      rejects: no link is built from them, whatever the clipboard does. */
  lemma FailedStatsBlockCopy(s: ModalState, response: StatsResponse, origin: string, clipboardAccepts: bool)
    requires !response.StatsOk?
    ensures AfterCopyClick(AfterStatsFetch(s, response), origin, clipboardAccepts).1.CodeNotReady?
    ensures !AfterCopyClick(AfterStatsFetch(s, response), origin, clipboardAccepts).0.copied || s.copied
  {
  }

  /** Before any stats have arrived the copy button only reports that data is not loaded. */
  lemma NothingToCopyInitially(origin: string, clipboardAccepts: bool)
    ensures AfterCopyClick(Initial, origin, clipboardAccepts).1 == NotLoaded(NotLoadedMessage)
    ensures AfterCopyClick(Initial, origin, clipboardAccepts).0 == Initial
  {
  }

  /** A failed stats request shows the unranked tier (0.01%) and a zero payout. */
  lemma FailedStatsShowFloorTier(s: ModalState, response: StatsResponse)
    requires !response.StatsOk?
    ensures DisplayedRank(AfterStatsFetch(s, response).stats) == None
    ensures RewardTier.GetRewardTier(DisplayedRank(AfterStatsFetch(s, response).stats)).percent == RewardTier.HundredthPercent
    ensures RewardTier.GetProjectedReward(DisplayedRank(AfterStatsFetch(s, response).stats)) == 0
  {
  }

  /** Folding a `0` rank into `null` changes neither ladder's answer. */
  lemma DisplayedRankKeepsLadders(stats: ReferralStats)
    ensures RewardTier.GetRewardTier(DisplayedRank(Some(stats))) == RewardTier.GetRewardTier(stats.rank)
    ensures RewardTier.GetProjectedReward(DisplayedRank(Some(stats))) == RewardTier.GetProjectedReward(stats.rank)
  {
  }
}
