/** The two records the referral modal receives from its endpoints. */
module ReferralData {
  import opened Wrappers

  /** One user's referral standing (`ReferralStats`); `rank` is `number | null`. */
  datatype ReferralStats = ReferralStats(
    refCode: string,
    referralsCount: int,
    rank: Option<int>,
    totalUsers: int)

  /** One row of the referral leaderboard (`LeaderboardEntry`); `username`
      is `None` when the server leaves it out. */
  datatype LeaderboardEntry = LeaderboardEntry(
    wallet: string,
    username: Option<string>,
    referralsCount: int,
    rank: int)

  /** JavaScript truthiness of an optional string: `undefined` and `""` are falsy. */
  predicate Truthy(s: Option<string>)
  {
    s.Some? && s.value != ""
  }
}
