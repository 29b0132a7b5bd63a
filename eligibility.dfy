/** The monetisation eligibility check: six programs, each with a list of
    requirements that are integer thresholds or flags of the account; a
    program is eligible when every requirement is met, partly eligible when
    some are, and not eligible when none are. */
module Eligibility {
  import opened Common

  /** `store.accountInfo` as the eligibility form writes it. */
  datatype AccountInfo = AccountInfo(
    followers: int, impressions: int, accountAge: int, monthlyTweets: int,
    hasPremium: bool, hasStripe: bool, hasVerifiedEmail: bool, has2FA: bool)

  /** The form: four numeric inputs as parsed (`None` when they do not parse)
      and four check boxes. */
  datatype EligibilityForm = EligibilityForm(
    followers: Option<int>, impressions: Option<int>, accountAge: Option<int>, monthlyTweets: Option<int>,
    hasPremium: bool, hasStripe: bool, hasVerifiedEmail: bool, has2FA: bool)

  /** `parseInt(value) || 0` for each number, the check boxes as they are. */
  function ReadForm(form: EligibilityForm): (info: AccountInfo)
    ensures form.followers.Some? ==> info.followers == form.followers.value
    ensures form.followers.None? ==> info.followers == 0
    ensures form.impressions.Some? ==> info.impressions == form.impressions.value
    ensures form.impressions.None? ==> info.impressions == 0
    ensures form.accountAge.Some? ==> info.accountAge == form.accountAge.value
    ensures form.accountAge.None? ==> info.accountAge == 0
    ensures form.monthlyTweets.Some? ==> info.monthlyTweets == form.monthlyTweets.value
    ensures form.monthlyTweets.None? ==> info.monthlyTweets == 0
    ensures info.hasPremium == form.hasPremium && info.hasStripe == form.hasStripe
    ensures info.hasVerifiedEmail == form.hasVerifiedEmail && info.has2FA == form.has2FA
  {
    AccountInfo(
      OrElse(form.followers, 0), OrElse(form.impressions, 0),
      OrElse(form.accountAge, 0), OrElse(form.monthlyTweets, 0),
      form.hasPremium, form.hasStripe, form.hasVerifiedEmail, form.has2FA)
  }

  datatype Program = AdRevenue | Subscriptions | TicketedSpaces | Tips | ArticlePrize | Affiliate

  /** The programs in display order. */
  const Programs: seq<Program> := [AdRevenue, Subscriptions, TicketedSpaces, Tips, ArticlePrize, Affiliate]

  /** Whether each requirement of a program is met, in the listed order. */
  function Requirements(p: Program, info: AccountInfo): seq<bool> {
    match p
    case AdRevenue => [
      info.hasPremium, info.followers >= 500, info.impressions >= 5000000,
      info.accountAge >= 3, info.hasStripe, info.hasVerifiedEmail]
    case Subscriptions => [info.hasPremium, info.followers >= 500, info.monthlyTweets >= 25, info.accountAge >= 3]
    case TicketedSpaces => [info.hasPremium, info.followers >= 500, info.accountAge >= 3]
    case Tips => [info.hasVerifiedEmail, info.accountAge >= 3]
    case ArticlePrize => [info.hasPremium, true, true]
    case Affiliate => [info.accountAge >= 1, info.followers >= 100]
  }

  /** `requirements.every(r => r.met)`. */
  function Every(met: seq<bool>): (all: bool)
    ensures all <==> forall i :: 0 <= i < |met| ==> met[i]
  {
    if met == [] then true
    else
      assert forall i :: 1 <= i < |met| ==> met[i] == met[1..][i - 1];
      met[0] && Every(met[1..])
  }

  /** `requirements.some(r => r.met)`. */
  function Any(met: seq<bool>): (some: bool)
    ensures some <==> exists i :: 0 <= i < |met| && met[i]
  {
    if met == [] then false
    else
      assert forall i :: 1 <= i < |met| ==> met[i] == met[1..][i - 1];
      met[0] || Any(met[1..])
  }

  datatype Status = Eligible | Partial | NotEligible

  /** `allMet ? 'eligible' : (someMet ? 'partial' : 'not-eligible')`. */
  function Classify(met: seq<bool>): (s: Status)
    ensures s == Eligible <==> forall i :: 0 <= i < |met| ==> met[i]
    ensures s == NotEligible <==> |met| > 0 && forall i :: 0 <= i < |met| ==> !met[i]
    ensures s == Partial <==> (exists i :: 0 <= i < |met| && met[i]) && (exists i :: 0 <= i < |met| && !met[i])
  {
    if Every(met) then Eligible else if Any(met) then Partial else NotEligible
  }

  /** The status of a program for an account. */
  function StatusOf(p: Program, info: AccountInfo): Status {
    Classify(Requirements(p, info))
  }

  /** Order of statuses, from worst to best. */
  function StatusRank(s: Status): nat {
    match s
    case NotEligible => 0
    case Partial => 1
    case Eligible => 2
  }

  /** Meeting more requirements never gives a worse status. */
  lemma ClassifyMonotone(met: seq<bool>, more: seq<bool>)
    requires |met| == |more|
    requires forall i :: 0 <= i < |met| ==> met[i] ==> more[i]
    ensures StatusRank(Classify(met)) <= StatusRank(Classify(more))
  {
    if Classify(met) == Partial {
      var i :| 0 <= i < |met| && met[i];
      assert more[i];
    }
  }

  /** An account that is at least as far along in every respect. */
  predicate AtLeastAsFar(info: AccountInfo, better: AccountInfo) {
    && info.followers <= better.followers
    && info.impressions <= better.impressions
    && info.accountAge <= better.accountAge
    && info.monthlyTweets <= better.monthlyTweets
    && (info.hasPremium ==> better.hasPremium)
    && (info.hasStripe ==> better.hasStripe)
    && (info.hasVerifiedEmail ==> better.hasVerifiedEmail)
  }

  /** Growing the account never lowers the status of any program. */
  lemma StatusMonotone(p: Program, info: AccountInfo, better: AccountInfo)
    requires AtLeastAsFar(info, better)
    ensures StatusRank(StatusOf(p, info)) <= StatusRank(StatusOf(p, better))
  {
    ClassifyMonotone(Requirements(p, info), Requirements(p, better));
  }

  /** The requirements of ticketed Spaces are among those of ad revenue
      sharing and of subscriptions, so either of those implies it. */
  lemma SpacesFollows(info: AccountInfo)
    ensures StatusOf(AdRevenue, info) == Eligible ==> StatusOf(TicketedSpaces, info) == Eligible
    ensures StatusOf(Subscriptions, info) == Eligible ==> StatusOf(TicketedSpaces, info) == Eligible
  {
    var ad, sub := Requirements(AdRevenue, info), Requirements(Subscriptions, info);
    if StatusOf(AdRevenue, info) == Eligible {
      assert ad[0] && ad[1] && ad[3];
    }
    if StatusOf(Subscriptions, info) == Eligible {
      assert sub[0] && sub[1] && sub[3];
    }
  }

  /** Two requirements of the article prize always hold: it is eligible with
      premium and partly eligible without, never not eligible. */
  lemma ArticlePrizeStatus(info: AccountInfo)
    ensures StatusOf(ArticlePrize, info) == if info.hasPremium then Eligible else Partial
  {
    var met := Requirements(ArticlePrize, info);
    assert met[1];
    if !info.hasPremium {
      assert !met[0];
    }
  }

  /** Two-factor authentication is asked for but is a requirement of no program. */
  lemma TwoFactorIgnored(p: Program, info: AccountInfo)
    ensures StatusOf(p, info) == StatusOf(p, info.(has2FA := !info.has2FA))
  {
  }
}
