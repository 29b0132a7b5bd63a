/** The four numeric goals (followers, impressions, revenue, tweets), each a
    current value and a target, their progress-bar fill, and how the edit form
    writes them back. */
module GoalTracker {
  import opened Common

  datatype Goal = Goal(current: int, target: int)

  /** Targets of `DEFAULT_GOALS`, also the fallbacks of the edit form. */
  const FollowersTarget: int := 500
  const ImpressionsTarget: int := 5000000
  const RevenueTarget: int := 200
  const TweetsTarget: int := 150

  /** `Math.min((current / target) * 100, 100)`, the width of a goal's bar in
      percent. The bar is clamped from above only. */
  function BarFill(g: Goal): (pct: real)
    requires g.target != 0
    ensures pct <= 100.0
    ensures g.target > 0 ==> (pct == 100.0 <==> g.current >= g.target)
    ensures g.current == 0 ==> pct == 0.0
    ensures g.target > 0 && g.current >= 0 ==> pct >= 0.0
  {
    var ratio := (g.current as real) / (g.target as real);
    assert g.target > 0 ==> (ratio >= 1.0 <==> g.current >= g.target);
    if ratio * 100.0 < 100.0 then ratio * 100.0 else 100.0
  }

  /** A larger current value never gives a shorter bar. */
  lemma BarFillMonotone(g: Goal, h: Goal)
    requires g.target == h.target && g.target > 0 && g.current <= h.current
    ensures BarFill(g) <= BarFill(h)
  {
    var t := g.target as real;
    assert (g.current as real) / t <= (h.current as real) / t;
  }

  /** One row of the edit form: `parseInt(current) || 0` and
      `parseInt(target) || defaultTarget`, with `None` for an input that does
      not parse. */
  function FormGoal(current: Option<int>, target: Option<int>, defaultTarget: int): (g: Goal)
    requires defaultTarget != 0
    ensures g.target != 0
    ensures target.None? || target.value == 0 ==> g.target == defaultTarget
    ensures target.Some? && target.value != 0 ==> g.target == target.value
    ensures current.None? ==> g.current == 0
    ensures current.Some? ==> g.current == current.value
  {
    Goal(OrElse(current, 0), OrElse(target, defaultTarget))
  }

  /** The eight inputs of the edit form, each as parsed. */
  datatype GoalForm = GoalForm(
    followersCurrent: Option<int>, followersTarget: Option<int>,
    impressionsCurrent: Option<int>, impressionsTarget: Option<int>,
    revenueCurrent: Option<int>, revenueTarget: Option<int>,
    tweetsCurrent: Option<int>, tweetsTarget: Option<int>)

  /** `store.goals`. */
  class Goals {
    var followers: Goal
    var impressions: Goal
    var revenue: Goal
    var tweets: Goal

    /** No target is zero, so every bar fill is defined. */
    ghost predicate Valid()
      reads this
    {
      followers.target != 0 && impressions.target != 0 && revenue.target != 0 && tweets.target != 0
    }

    /** The widths of the four bars in `renderGoals`, in the order followers,
        impressions, revenue, tweets; each is defined because no target is 0. */
    function BarFills(): (pcts: seq<real>)
      reads this
      requires Valid()
      ensures |pcts| == 4
      ensures forall i :: 0 <= i < |pcts| ==> pcts[i] <= 100.0
      ensures followers.target > 0 ==> (pcts[0] == 100.0 <==> followers.current >= followers.target)
      ensures impressions.target > 0 ==> (pcts[1] == 100.0 <==> impressions.current >= impressions.target)
      ensures revenue.target > 0 ==> (pcts[2] == 100.0 <==> revenue.current >= revenue.target)
      ensures tweets.target > 0 ==> (pcts[3] == 100.0 <==> tweets.current >= tweets.target)
    {
      [BarFill(followers), BarFill(impressions), BarFill(revenue), BarFill(tweets)]
    }

    /** A copy of `DEFAULT_GOALS`, with the follower and impression counts of
        the account and the rounded revenue total as current values. A missing
        account count reads as 0, which leaves the default current value 0. */
    constructor FromDefaults(accountFollowers: int, accountImpressions: int, revenueTotal: int)
      ensures Valid()
      ensures followers == Goal(accountFollowers, FollowersTarget)
      ensures impressions == Goal(accountImpressions, ImpressionsTarget)
      ensures revenue == Goal(revenueTotal, RevenueTarget)
      ensures tweets == Goal(0, TweetsTarget)
    {
      followers := Goal(accountFollowers, FollowersTarget);
      impressions := Goal(accountImpressions, ImpressionsTarget);
      revenue := Goal(revenueTotal, RevenueTarget);
      tweets := Goal(0, TweetsTarget);
    }

    /** `saveGoals`: overwrite all eight values from the form, falling back to
        0 for a current value and to the default for a target. */
    method Save(form: GoalForm)
      modifies this
      ensures Valid()
      ensures followers == FormGoal(form.followersCurrent, form.followersTarget, FollowersTarget)
      ensures impressions == FormGoal(form.impressionsCurrent, form.impressionsTarget, ImpressionsTarget)
      ensures revenue == FormGoal(form.revenueCurrent, form.revenueTarget, RevenueTarget)
      ensures tweets == FormGoal(form.tweetsCurrent, form.tweetsTarget, TweetsTarget)
    {
      followers := FormGoal(form.followersCurrent, form.followersTarget, FollowersTarget);
      impressions := FormGoal(form.impressionsCurrent, form.impressionsTarget, ImpressionsTarget);
      revenue := FormGoal(form.revenueCurrent, form.revenueTarget, RevenueTarget);
      tweets := FormGoal(form.tweetsCurrent, form.tweetsTarget, TweetsTarget);
    }
  }
}
