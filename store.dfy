/** The action-plan state (`store.actionPlan`) and the store that owns it
    together with the goals and the account information: plan creation,
    toggling an action, editing goals, and recording an eligibility check. */
module PlanStore {
  import opened Common
  import opened Catalog
  import opened Progress
  import opened StreakCalculator
  import opened GoalTracker
  import opened Eligibility

  /** No day appears twice. */
  predicate NoDuplicates(s: seq<Day>) {
    forall i, j :: 0 <= i < j < |s| ==> s[i] != s[j]
  }

  // ---------------------------------------------------------------------------
  // Toggling, on values

  /** The completion map after toggling `id` on `today`: a completed action
      loses its entry, any other gains `{completed: true, completedDate: today}`;
      every other entry stays as it was. */
  function ToggleActions(actions: Actions, id: string, today: Day): (r: Actions)
    ensures IsCompleted(r, id) == !IsCompleted(actions, id)
    ensures IsCompleted(actions, id) ==> id !in r
    ensures !IsCompleted(actions, id) ==> id in r && r[id] == ActionState(true, today)
    ensures forall other :: other != id ==> (other in r <==> other in actions)
    ensures forall other :: other != id && other in r ==> r[other] == actions[other]
  {
    if IsCompleted(actions, id) then actions - {id}
    else actions[id := ActionState(true, today)]
  }

  /** The streak list after the same toggle: un-completing leaves it alone,
      completing appends `today` unless it is already there. */
  function ToggleStreakDates(streakDates: seq<Day>, actions: Actions, id: string, today: Day): (r: seq<Day>)
    ensures IsCompleted(actions, id) ==> r == streakDates
    ensures !IsCompleted(actions, id) ==> today in r
    ensures |streakDates| <= |r| <= |streakDates| + 1 && r[..|streakDates|] == streakDates
    ensures forall d :: d in r <==> d in streakDates || (d == today && !IsCompleted(actions, id))
    ensures NoDuplicates(streakDates) ==> NoDuplicates(r)
    ensures today in streakDates ==> r == streakDates
    ensures !IsCompleted(actions, id) && today !in streakDates ==> r == streakDates + [today]
  {
    if IsCompleted(actions, id) || today in streakDates then streakDates
    else
      assert (streakDates + [today])[..|streakDates|] == streakDates;
      streakDates + [today]
  }

  /** Toggling twice gives back the completion status of the action, and
      every other entry is as before; the streak list keeps what it had. */
  lemma ToggleTwice(actions: Actions, streakDates: seq<Day>, id: string, first: Day, second: Day)
    ensures var once := ToggleActions(actions, id, first);
            var twice := ToggleActions(once, id, second);
            && IsCompleted(twice, id) == IsCompleted(actions, id)
            && (forall other :: other != id ==> (other in twice <==> other in actions))
            && (forall other :: other != id && other in twice ==> twice[other] == actions[other])
    ensures var once := ToggleActions(actions, id, first);
            var dates := ToggleStreakDates(ToggleStreakDates(streakDates, actions, id, first), once, id, second);
            forall d :: d in streakDates ==> d in dates
  {
  }

  /** A toggle keeps the sparse-map invariant: every entry is a completed one. */
  lemma ToggleKeepsEntriesCompleted(actions: Actions, id: string, today: Day)
    requires forall k :: k in actions ==> actions[k].completed
    ensures var r := ToggleActions(actions, id, today);
            forall k :: k in r ==> r[k].completed
  {
  }

  /** Toggling a catalog item moves the overall completed count by exactly one. */
  lemma ToggleCount(catalog: seq<ActionItem>, actions: Actions, k: nat, today: Day)
    requires UniqueIds(catalog) && k < |catalog|
    ensures var after := ToggleActions(actions, catalog[k].id, today);
            CountCompleted(catalog, after)
            == if IsCompleted(actions, catalog[k].id) then CountCompleted(catalog, actions) - 1
               else CountCompleted(catalog, actions) + 1
  {
    var id := catalog[k].id;
    CountAfterChange(catalog, actions, ToggleActions(actions, id, today), id);
    OccursOnce(catalog, k);
  }

  /** Toggling an item moves the completed count of its own phase by one and
      leaves the other phases' counts as they were. */
  lemma TogglePhaseCount(catalog: seq<ActionItem>, actions: Actions, k: nat, today: Day, phase: int)
    requires UniqueIds(catalog) && k < |catalog|
    ensures var after := ToggleActions(actions, catalog[k].id, today);
            var before := CountCompleted(InPhase(catalog, phase), actions);
            CountCompleted(InPhase(catalog, phase), after)
            == if catalog[k].phase != phase then before
               else if IsCompleted(actions, catalog[k].id) then before - 1
               else before + 1
  {
    var id := catalog[k].id;
    CountAfterChange(InPhase(catalog, phase), actions, ToggleActions(actions, id, today), id);
    OccurrencesInPhase(catalog, k, phase);
  }

  /** In a catalog with unique ids, the id of item `k` occurs in the items of
      a phase once if `k` belongs to it and not at all otherwise. */
  lemma {:induction false} OccurrencesInPhase(items: seq<ActionItem>, k: nat, phase: int)
    requires UniqueIds(items) && k < |items|
    ensures Occurrences(InPhase(items, phase), items[k].id) == if items[k].phase == phase then 1 else 0
  {
    var id := items[k].id;
    var rest := InPhase(items[1..], phase);
    var head := if items[0].phase == phase then [items[0]] else [];
    assert InPhase(items, phase) == head + rest;
    OccurrencesAppend(head, rest, id);
    if k == 0 {
      NotOccurring(items[1..], id);
      OccurrencesOfFilter(items[1..], phase, id);
    } else {
      assert UniqueIds(items[1..]) by {
        forall i, j | 0 <= i < j < |items| - 1 ensures items[1..][i].id != items[1..][j].id {
          assert items[1..][i] == items[i + 1] && items[1..][j] == items[j + 1];
        }
      }
      assert items[1..][k - 1] == items[k];
      assert items[0].id != id;
      OccurrencesInPhase(items[1..], k - 1, phase);
    }
  }

  lemma {:induction false} OccurrencesAppend(a: seq<ActionItem>, b: seq<ActionItem>, id: string)
    ensures Occurrences(a + b, id) == Occurrences(a, id) + Occurrences(b, id)
  {
    if a != [] {
      assert (a + b)[0] == a[0] && (a + b)[1..] == a[1..] + b;
      OccurrencesAppend(a[1..], b, id);
    } else {
      assert a + b == b;
    }
  }

  /** Filtering by phase never adds occurrences of an id. */
  lemma {:induction false} OccurrencesOfFilter(items: seq<ActionItem>, phase: int, id: string)
    ensures Occurrences(InPhase(items, phase), id) <= Occurrences(items, id)
  {
    if items != [] {
      var head := if items[0].phase == phase then [items[0]] else [];
      OccurrencesAppend(head, InPhase(items[1..], phase), id);
      OccurrencesOfFilter(items[1..], phase, id);
    }
  }

  // ---------------------------------------------------------------------------
  // Plan creation, on values

  /** `a.preCompletedDate || today`. */
  function PreCompletionDate(item: ActionItem, today: Day): Day {
    match item.preCompletedDate
    case Some(date) => date
    case None => today
  }

  /** The completion map that the `forEach` over the catalog builds when a
      plan is created: one completed entry per pre-completed item, the later
      item winning when two share an id. */
  function SeededActions(items: seq<ActionItem>, today: Day): (r: Actions)
    ensures forall id :: id in r ==> r[id].completed
    ensures forall id :: id in r <==> exists i :: 0 <= i < |items| && items[i].preCompleted && items[i].id == id
  {
    if items == [] then map[]
    else
      var last := items[|items| - 1];
      var m := SeededActions(items[..|items| - 1], today);
      assert forall i :: 0 <= i < |items| - 1 ==> items[..|items| - 1][i] == items[i];
      if last.preCompleted then m[last.id := ActionState(true, PreCompletionDate(last, today))] else m
  }

  /** With unique ids, each pre-completed item is dated with its own date. */
  lemma {:induction false} SeededDate(items: seq<ActionItem>, today: Day, k: nat)
    requires UniqueIds(items) && k < |items| && items[k].preCompleted
    ensures items[k].id in SeededActions(items, today)
    ensures items[k].preCompletedDate.Some? ==>
              SeededActions(items, today)[items[k].id] == ActionState(true, items[k].preCompletedDate.value)
    ensures items[k].preCompletedDate.None? ==>
              SeededActions(items, today)[items[k].id] == ActionState(true, today)
  {
    var n := |items| - 1;
    if k < n {
      var prefix := items[..n];
      assert prefix[k] == items[k];
      assert UniqueIds(prefix);
      SeededDate(prefix, today, k);
      assert items[n].id != items[k].id;
    }
  }

  /** Only the second item of the reference catalog is pre-completed. */
  lemma OnlyXPremiumPreCompleted()
    ensures forall i :: 0 <= i < |ActionPlanData| ==> (ActionPlanData[i].preCompleted <==> i == 1)
  {
  }

  /** On the reference catalog, a new plan holds exactly the X Premium item,
      dated 2026-02-20, whatever the day of creation. */
  lemma SeededReferenceCatalog(today: Day)
    ensures SeededActions(ActionPlanData, today) == map["p1_2" := ActionState(true, XPremiumDate)]
  {
    CatalogShape();
    OnlyXPremiumPreCompleted();
    var r := SeededActions(ActionPlanData, today);
    var item := ActionPlanData[1];
    assert item.id == "p1_2" && item.preCompletedDate == Some(XPremiumDate);
    SeededDate(ActionPlanData, today, 1);
    assert r.Keys == {"p1_2"} by {
      forall id | id in r ensures id == "p1_2" {
        var i :| 0 <= i < |ActionPlanData| && ActionPlanData[i].preCompleted && ActionPlanData[i].id == id;
      }
    }
  }

  // ---------------------------------------------------------------------------
  // The plan

  /** `store.actionPlan`. */
  class ActionPlan {
    var startDate: Day
    var actions: Actions
    var streakDates: seq<Day>

    /** Entries exist only for completed actions, and no day is listed twice
        in the streak list. */
    ghost predicate Valid()
      reads this
    {
      (forall id :: id in actions ==> actions[id].completed) && NoDuplicates(streakDates)
    }

    /** A new plan started today: the pre-completed catalog items are the only
        entries, and the streak list is empty. */
    constructor (catalog: seq<ActionItem>, today: Day)
      ensures Valid()
      ensures startDate == today
      ensures actions == SeededActions(catalog, today)
      ensures streakDates == []
    {
      var seeded: Actions := map[];
      var i := 0;
      while i < |catalog|
        invariant 0 <= i <= |catalog|
        invariant seeded == SeededActions(catalog[..i], today)
      {
        var a := catalog[i];
        assert catalog[..i + 1][..i] == catalog[..i];
        if a.preCompleted {
          seeded := seeded[a.id := ActionState(true, PreCompletionDate(a, today))];
        }
        i := i + 1;
      }
      assert catalog[..i] == catalog;
      startDate := today;
      actions := seeded;
      streakDates := [];
    }

    /** `toggleActionItem`: un-complete a completed action by deleting its
        entry, or complete it today and record today in the streak list. The
        start date never changes. */
    method Toggle(id: string, today: Day)
      modifies this
      ensures actions == ToggleActions(old(actions), id, today)
      ensures streakDates == ToggleStreakDates(old(streakDates), old(actions), id, today)
      ensures startDate == old(startDate)
      ensures old(Valid()) ==> Valid()
    {
      if IsCompleted(actions, id) {
        actions := actions - {id};
      } else {
        actions := actions[id := ActionState(true, today)];
        if today !in streakDates {
          streakDates := streakDates + [today];
        }
      }
    }
  }

  // ---------------------------------------------------------------------------
  // The store

  /** The parts of the global `store` that the action plan uses. */
  class Store {
    var actionPlan: ActionPlan?
    var goals: Goals?
    var accountInfo: AccountInfo

    ghost predicate Valid()
      reads this, actionPlan, goals
    {
      (actionPlan != null ==> actionPlan.Valid()) && (goals != null ==> goals.Valid())
    }

    /** A first run: no plan and no goals saved yet. */
    constructor (accountInfo: AccountInfo)
      ensures Valid()
      ensures actionPlan == null && goals == null && this.accountInfo == accountInfo
    {
      actionPlan := null;
      goals := null;
      this.accountInfo := accountInfo;
    }

    /** `initActionPlan`: create the plan when there is none, then the goals
        when there are none; what exists is left as it is. `revenueTotal` is
        the rounded sum of the recorded revenue. */
    method InitActionPlan(today: Day, revenueTotal: int)
      requires Valid()
      modifies this
      ensures Valid()
      ensures actionPlan != null && goals != null
      ensures accountInfo == old(accountInfo)
      ensures old(actionPlan) != null ==> actionPlan == old(actionPlan) && unchanged(actionPlan)
      ensures old(actionPlan) == null ==>
                && fresh(actionPlan)
                && actionPlan.startDate == today
                && actionPlan.actions == SeededActions(ActionPlanData, today)
                && actionPlan.streakDates == []
      ensures old(goals) != null ==> goals == old(goals) && unchanged(goals)
      ensures old(goals) == null ==>
                && fresh(goals)
                && goals.followers == Goal(accountInfo.followers, FollowersTarget)
                && goals.impressions == Goal(accountInfo.impressions, ImpressionsTarget)
                && goals.revenue == Goal(revenueTotal, RevenueTarget)
                && goals.tweets == Goal(0, TweetsTarget)
    {
      if actionPlan == null {
        actionPlan := new ActionPlan(ActionPlanData, today);
      }
      if goals == null {
        goals := new Goals.FromDefaults(accountInfo.followers, accountInfo.impressions, revenueTotal);
      }
    }

    /** The eligibility button: record the account information read from the
        form and report the status of each program, in display order. */
    method CheckEligibility(form: EligibilityForm) returns (statuses: seq<Status>)
      modifies this
      ensures accountInfo == ReadForm(form)
      ensures actionPlan == old(actionPlan) && goals == old(goals)
      ensures |statuses| == |Programs|
      ensures forall i :: 0 <= i < |Programs| ==> statuses[i] == StatusOf(Programs[i], accountInfo)
    {
      accountInfo := ReadForm(form);
      statuses := [];
      for i := 0 to |Programs|
        invariant |statuses| == i
        invariant forall j :: 0 <= j < i ==> statuses[j] == StatusOf(Programs[j], accountInfo)
      {
        statuses := statuses + [StatusOf(Programs[i], accountInfo)];
      }
    }
  }

  // ---------------------------------------------------------------------------
  // Scenarios

  /** A plan created on day 0 from two phase-1 items, one pre-completed on
      day -5: one phase-1 item is completed, dated day -5 and not the day of
      creation, and the first-step milestone is reached. Seeding does not
      touch the streak list, which the constructor leaves empty. */
  lemma PreCompletedScenario()
    ensures var items := [ActionItem("a", 1, Normal, true, Some(-5)), ActionItem("b", 1, Critical, false, None)];
            var actions := SeededActions(items, 0);
            && CountCompleted(InPhase(items, 1), actions) == 1
            && "a" in actions && actions["a"] == ActionState(true, -5)
            && Achieved(FirstStep, items, actions, 0)
  {
    var items := [ActionItem("a", 1, Normal, true, Some(-5)), ActionItem("b", 1, Critical, false, None)];
    var actions := SeededActions(items, 0);
    assert "a" in actions by {
      assert items[0].preCompleted && items[0].id == "a";
    }
    assert InPhase(items, 1) == items;
  }

  /** Completing two actions on consecutive days gives a streak of 2 on the
      second day, and un-completing the second one afterwards leaves the
      streak list, and so the streak, as it was. */
  lemma ConsecutiveDaysScenario(actions: Actions, x: string, y: string, d: Day)
    requires x != y && !IsCompleted(actions, x) && !IsCompleted(actions, y)
    ensures var a1 := ToggleActions(actions, x, d);
            var s1 := ToggleStreakDates([], actions, x, d);
            var a2 := ToggleActions(a1, y, d + 1);
            var s2 := ToggleStreakDates(s1, a1, y, d + 1);
            var s3 := ToggleStreakDates(s2, a2, y, d + 1);
            && s2 == [d, d + 1]
            && Streak(s2, d + 1) == 2
            && s3 == s2
  {
    var a1 := ToggleActions(actions, x, d);
    var s1 := ToggleStreakDates([], actions, x, d);
    assert s1 == [d];
    assert !IsCompleted(a1, y);
    var s2 := ToggleStreakDates(s1, a1, y, d + 1);
    assert s2 == [d, d + 1];
    assert IsCompleted(ToggleActions(a1, y, d + 1), y);
    assert Latest(s2) == d + 1;
    StreakIsRun(s2, d + 1, d + 1, 2);
  }
}
