/** `copyReferralLink`: the guard that decides whether a shareable link may be
    built from the loaded stats, the link itself, and the toast it ends with.
    The page origin and the clipboard's answer are inputs. */
module ReferralLink {
  import opened Wrappers
  import opened ReferralData

  /** The two placeholder codes the stats fetch leaves behind on failure. */
  const LoadingCode: string := "loading..."
  const ErrorCode: string := "error"

  const NotLoadedMessage: string := "Referral data not loaded yet. Please wait a moment."
  const CopiedMessage: string :=
    "Referral link copied! Share this link - every new signup counts toward your leaderboard rank!"
  const CopyFailedPrefix: string := "Copy failed. Your link: "

  /** How a click on the copy button ends. */
  datatype CopyOutcome =
    | NotLoaded(message: string)               // no stats yet
    | CodeNotReady(message: string)            // a missing or placeholder code
    | Copied(link: string, message: string)    // the clipboard took the link
    | CopyFailed(link: string, message: string) // the clipboard refused; the link is shown instead
  {
    predicate HasLink()
    {
      Copied? || CopyFailed?
    }
  }

  /** A code a link may be built from: truthy and neither placeholder. */
  predicate CodeUsable(code: string)
  {
    code != "" && code != LoadingCode && code != ErrorCode
  }

  /** `${origin}?ref=${refCode}`, with no URL encoding. */
  function ReferralUrl(origin: string, code: string): (url: string)
    ensures |url| == |origin| + 5 + |code|
    ensures url[..|origin|] == origin && url[|origin|..|origin| + 5] == "?ref=" && url[|origin| + 5..] == code
  {
    origin + "?ref=" + code
  }

  /** The toast for a code that is not ready; an empty code reads "missing". */
  function NotReadyMessage(code: string): (m: string)
    ensures |m| == 25 + (if code == "" then 7 else |code|) + 19
    ensures code != "" ==> m[25..25 + |code|] == code
    ensures code == "" ==> m[25..32] == "missing"
    ensures m[..25] == "Referral code not ready: " && m[|m| - 19..] == ". Please try again."
  {
    "Referral code not ready: " + (if code == "" then "missing" else code) + ". Please try again."
  }

  function CopyReferralLink(stats: Option<ReferralStats>, origin: string, clipboardAccepts: bool): (o: CopyOutcome)
    ensures o.NotLoaded? <==> stats.None?
    ensures o.HasLink() <==> stats.Some? && CodeUsable(stats.value.refCode)
    ensures o.HasLink() ==> o.link == ReferralUrl(origin, stats.value.refCode)
    ensures o.Copied? <==> o.HasLink() && clipboardAccepts
    ensures o.CopyFailed? ==> o.message == CopyFailedPrefix + o.link
    ensures o.CodeNotReady? ==> o.message == NotReadyMessage(stats.value.refCode)
    ensures o.NotLoaded? ==> o.message == NotLoadedMessage
    ensures o.Copied? ==> o.message == CopiedMessage
  {
    match stats
    case None => NotLoaded(NotLoadedMessage)
    case Some(s) =>
      if !CodeUsable(s.refCode) then CodeNotReady(NotReadyMessage(s.refCode))
      else
        var link := ReferralUrl(origin, s.refCode);
        if clipboardAccepts then Copied(link, CopiedMessage)
        else CopyFailed(link, CopyFailedPrefix + link)
  }

  /** The code read back from a link of this origin: the text after `?ref=`. */
  function CodeFromUrl(origin: string, url: string): (code: Option<string>)
    ensures code.Some? ==> ReferralUrl(origin, code.value) == url
  {
    var prefix := origin + "?ref=";
    if |prefix| <= |url| && url[..|prefix|] == prefix then Some(url[|prefix|..]) else None
  }

  /** Building a link and reading its code back gives the code again, so two
      different codes never share a link. */
  lemma UrlRoundTrip(origin: string, code: string)
    ensures CodeFromUrl(origin, ReferralUrl(origin, code)) == Some(code)
  {
    var prefix := origin + "?ref=";
    assert ReferralUrl(origin, code) == prefix + code;
    assert (prefix + code)[..|prefix|] == prefix;
    assert (prefix + code)[|prefix|..] == code;
  }

  /** A failed copy shows the very link a successful one would have copied. */
  lemma FailedCopyShowsSameLink(stats: Option<ReferralStats>, origin: string)
    requires CopyReferralLink(stats, origin, true).Copied?
    ensures CopyReferralLink(stats, origin, false).CopyFailed?
    ensures CopyReferralLink(stats, origin, false).link == CopyReferralLink(stats, origin, true).link
    ensures CopyReferralLink(stats, origin, false).message[|CopyFailedPrefix|..] == CopyReferralLink(stats, origin, true).link
  {
  }

  /** The link the modal displays: `${origin}?ref=${stats?.refCode || '...'}`. */
  function DisplayedUrl(stats: Option<ReferralStats>, origin: string): (url: string)
    ensures stats.Some? && stats.value.refCode != "" ==> CodeFromUrl(origin, url) == Some(stats.value.refCode)
    ensures !(stats.Some? && stats.value.refCode != "") ==> url == ReferralUrl(origin, "...")
  {
    var code := if stats.Some? && stats.value.refCode != "" then stats.value.refCode else "...";
    UrlRoundTrip(origin, code);
    ReferralUrl(origin, code)
  }

  /** Whenever a copy yields a link, it is the link the modal is displaying. */
  lemma CopiedLinkIsDisplayed(stats: Option<ReferralStats>, origin: string, clipboardAccepts: bool)
    requires CopyReferralLink(stats, origin, clipboardAccepts).HasLink()
    ensures CopyReferralLink(stats, origin, clipboardAccepts).link == DisplayedUrl(stats, origin)
  {
  }
}
