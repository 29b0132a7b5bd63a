/** Views derived from the completion map: completed counts (overall and per
    phase), the next action to suggest, the days left in the 90-day plan, and
    the six milestones. None of them changes any state. */
module Progress {
  import opened Common
  import opened Catalog

  /** `{ completed, completedDate }`, the record kept for a completed action. */
  datatype ActionState = ActionState(completed: bool, completedDate: Day)

  /** `store.actionPlan.actions`: a sparse map from action id to its record. */
  type Actions = map<string, ActionState>

  /** `actions[id]?.completed`: an id with no entry is not completed. */
  predicate IsCompleted(actions: Actions, id: string) {
    id in actions && actions[id].completed
  }

  /** Every action completed under `before` is still completed under `after`. */
  ghost predicate CompletionGrows(before: Actions, after: Actions) {
    forall id :: IsCompleted(before, id) ==> IsCompleted(after, id)
  }

  // ---------------------------------------------------------------------------
  // Completed counts

  /** `items.filter(a => actions[a.id]?.completed).length`. */
  function CountCompleted(items: seq<ActionItem>, actions: Actions): (n: nat)
    ensures n <= |items|
    ensures n == |items| <==> forall i :: 0 <= i < |items| ==> IsCompleted(actions, items[i].id)
    ensures n == 0 <==> forall i :: 0 <= i < |items| ==> !IsCompleted(actions, items[i].id)
  {
    if items == [] then 0
    else
      var rest := CountCompleted(items[1..], actions);
      assert forall i :: 1 <= i < |items| ==> items[i] == items[1..][i - 1];
      (if IsCompleted(actions, items[0].id) then 1 else 0) + rest
  }

  /** Number of items carrying the given id. */
  function Occurrences(items: seq<ActionItem>, id: string): (n: nat)
    ensures n <= |items|
  {
    if items == [] then 0
    else (if items[0].id == id then 1 else 0) + Occurrences(items[1..], id)
  }

  /** `completed/total` of one phase, as shown on that phase's progress bar. */
  function PhaseProgress(catalog: seq<ActionItem>, actions: Actions, phase: int): (r: (nat, nat))
    ensures r.0 <= r.1
    ensures r.1 == |InPhase(catalog, phase)|
    ensures r.0 == r.1 <==> forall a :: a in InPhase(catalog, phase) ==> IsCompleted(actions, a.id)
  {
    var items := InPhase(catalog, phase);
    (CountCompleted(items, actions), |items|)
  }

  /** Completing more actions never lowers a completed count. */
  lemma {:induction false} CountMonotone(items: seq<ActionItem>, before: Actions, after: Actions)
    requires CompletionGrows(before, after)
    ensures CountCompleted(items, before) <= CountCompleted(items, after)
  {
    if items != [] {
      CountMonotone(items[1..], before, after);
    }
  }

  /** When only `id` may change its completion, the count moves by the change at
      `id` times the number of items carrying that id. */
  lemma {:induction false} CountAfterChange(items: seq<ActionItem>, before: Actions, after: Actions, id: string)
    requires forall other :: other != id ==> IsCompleted(before, other) == IsCompleted(after, other)
    ensures CountCompleted(items, after) - CountCompleted(items, before)
         == Occurrences(items, id) * ((if IsCompleted(after, id) then 1 else 0) - (if IsCompleted(before, id) then 1 else 0))
  {
    if items != [] {
      CountAfterChange(items[1..], before, after, id);
    }
  }

  /** An id held by one item of a catalog with unique ids occurs exactly once. */
  lemma {:induction false} OccursOnce(items: seq<ActionItem>, k: nat)
    requires UniqueIds(items) && k < |items|
    ensures Occurrences(items, items[k].id) == 1
  {
    var id := items[k].id;
    if k == 0 {
      NotOccurring(items[1..], id);
    } else {
      assert UniqueIds(items[1..]) by {
        forall i, j | 0 <= i < j < |items| - 1 ensures items[1..][i].id != items[1..][j].id {
          assert items[1..][i] == items[i + 1] && items[1..][j] == items[j + 1];
        }
      }
      assert items[1..][k - 1] == items[k];
      OccursOnce(items[1..], k - 1);
    }
  }

  /** An id that no item carries occurs zero times. */
  lemma {:induction false} NotOccurring(items: seq<ActionItem>, id: string)
    requires forall i :: 0 <= i < |items| ==> items[i].id != id
    ensures Occurrences(items, id) == 0
  {
    if items != [] {
      NotOccurring(items[1..], id);
    }
  }

  /** The items of one phase are among all items, so their completed count is
      at most the overall one. */
  lemma {:induction false} PhaseCountAtMostTotal(items: seq<ActionItem>, actions: Actions, phase: int)
    ensures CountCompleted(InPhase(items, phase), actions) <= CountCompleted(items, actions)
  {
    if items != [] {
      PhaseCountAtMostTotal(items[1..], actions, phase);
      if items[0].phase == phase {
        assert InPhase(items, phase) == [items[0]] + InPhase(items[1..], phase);
        assert ([items[0]] + InPhase(items[1..], phase))[1..] == InPhase(items[1..], phase);
      } else {
        assert InPhase(items, phase) == InPhase(items[1..], phase);
      }
    }
  }

  /** The overall completed count is the sum of the three phase counts. */
  lemma {:induction false} CountIsSumOfPhases(items: seq<ActionItem>, actions: Actions)
    requires PhasesInRange(items)
    ensures CountCompleted(items, actions)
         == CountCompleted(InPhase(items, 1), actions)
          + CountCompleted(InPhase(items, 2), actions)
          + CountCompleted(InPhase(items, 3), actions)
  {
    if items != [] {
      assert PhasesInRange(items[1..]) by {
        forall i | 0 <= i < |items| - 1 ensures 1 <= items[1..][i].phase <= 3 {
          assert items[1..][i] == items[i + 1];
        }
      }
      CountIsSumOfPhases(items[1..], actions);
      var p := items[0].phase;
      forall q | 1 <= q <= 3
        ensures CountCompleted(InPhase(items, q), actions)
             == (if q == p && IsCompleted(actions, items[0].id) then 1 else 0) + CountCompleted(InPhase(items[1..], q), actions)
      {
        if q == p {
          assert InPhase(items, q) == [items[0]] + InPhase(items[1..], q);
          assert ([items[0]] + InPhase(items[1..], q))[1..] == InPhase(items[1..], q);
        } else {
          assert InPhase(items, q) == InPhase(items[1..], q);
        }
      }
    }
  }

  // ---------------------------------------------------------------------------
  // Next action

  /** The item is still to do and has the given priority (the `find` predicate). */
  predicate Pending(actions: Actions, item: ActionItem, prio: Priority) {
    item.priority == prio && !IsCompleted(actions, item.id)
  }

  /** Index `k` is the action to suggest: not completed, and every other
      uncompleted item has a lower priority or the same one and comes later. */
  predicate IsNextAction(catalog: seq<ActionItem>, actions: Actions, k: nat) {
    && k < |catalog|
    && !IsCompleted(actions, catalog[k].id)
    && forall j :: 0 <= j < |catalog| && !IsCompleted(actions, catalog[j].id) ==>
         Rank(catalog[k].priority) < Rank(catalog[j].priority)
         || (catalog[k].priority == catalog[j].priority && k <= j)
  }

  /** `ACTION_PLAN_DATA.find(a => a.priority === prio && !actions[a.id]?.completed)`,
      giving the index of the item found. */
  method FindPending(catalog: seq<ActionItem>, actions: Actions, prio: Priority) returns (found: Option<nat>)
    ensures found.Some? ==> found.value < |catalog| && Pending(actions, catalog[found.value], prio)
    ensures found.Some? ==> forall j :: 0 <= j < found.value ==> !Pending(actions, catalog[j], prio)
    ensures found.None? ==> forall j :: 0 <= j < |catalog| ==> !Pending(actions, catalog[j], prio)
  {
    var i := 0;
    while i < |catalog|
      invariant 0 <= i <= |catalog|
      invariant forall j :: 0 <= j < i ==> !Pending(actions, catalog[j], prio)
    {
      if Pending(actions, catalog[i], prio) {
        return Some(i);
      }
      i := i + 1;
    }
    return None;
  }

  /** The daily action: the first uncompleted critical item, else the first
      uncompleted important one, else the first uncompleted normal one; none
      exactly when every item is completed. */
  method NextAction(catalog: seq<ActionItem>, actions: Actions) returns (next: Option<nat>)
    ensures next.Some? ==> IsNextAction(catalog, actions, next.value)
    ensures next.None? <==> forall j :: 0 <= j < |catalog| ==> IsCompleted(actions, catalog[j].id)
  {
    next := None;
    var r := 0;
    while r < |Priorities|
      invariant 0 <= r <= |Priorities|
      invariant next.None?
      invariant forall j :: 0 <= j < |catalog| && Rank(catalog[j].priority) < r ==> IsCompleted(actions, catalog[j].id)
    {
      var prio := Priorities[r];
      assert Rank(prio) == r;
      next := FindPending(catalog, actions, prio);
      if next.Some? {
        break;
      }
      r := r + 1;
    }
  }

  /** At most one index satisfies `IsNextAction`, so the contract of
      `NextAction` fixes its result. */
  lemma NextActionUnique(catalog: seq<ActionItem>, actions: Actions, k: nat, m: nat)
    requires IsNextAction(catalog, actions, k) && IsNextAction(catalog, actions, m)
    ensures k == m
  {
  }

  // ---------------------------------------------------------------------------
  // Days left

  /** Length of the plan in days. */
  const PlanLength: int := 90

  /** `Math.max(90 - daysPassed, 0)` with `daysPassed` the whole days from the
      start date to today. */
  function DaysLeft(startDate: Day, today: Day): (left: nat)
    ensures today == startDate ==> left == PlanLength
    ensures today >= startDate ==> left <= PlanLength
    ensures left == 0 <==> today >= startDate + PlanLength
    ensures left > 0 ==> left + (today - startDate) == PlanLength
  {
    var daysPassed := today - startDate;
    if PlanLength - daysPassed > 0 then PlanLength - daysPassed else 0
  }

  /** Days left never grows as today advances. */
  lemma DaysLeftNonIncreasing(startDate: Day, earlier: Day, later: Day)
    requires earlier <= later
    ensures DaysLeft(startDate, later) <= DaysLeft(startDate, earlier)
  {
  }

  // ---------------------------------------------------------------------------
  // Milestones

  datatype Milestone = FirstStep | QuickStart | FirstRevenue | PhaseOneDone | Momentum | Master

  /** The milestones in display order. */
  const Milestones: seq<Milestone> := [FirstStep, QuickStart, FirstRevenue, PhaseOneDone, Momentum, Master]

  /** Whether a milestone is reached, given the completion map and the current
      revenue goal value (0 when there are no goals). The thresholds are the
      source's literal constants. */
  predicate Achieved(m: Milestone, catalog: seq<ActionItem>, actions: Actions, revenue: int) {
    match m
    case FirstStep => CountCompleted(catalog, actions) >= 1
    case QuickStart => CountCompleted(InPhase(catalog, 1), actions) >= 3
    case FirstRevenue => revenue > 0
    case PhaseOneDone => CountCompleted(InPhase(catalog, 1), actions) == 6
    case Momentum => CountCompleted(InPhase(catalog, 2), actions) >= 3
    case Master => CountCompleted(catalog, actions) == 18
  }

  /** On the reference catalog the literal thresholds mean what the milestones
      say: "phase 1 done" is every phase-1 item completed, "master" is every
      item completed, "first step" is some item completed. */
  lemma MilestoneMeaning(actions: Actions, revenue: int)
    ensures Achieved(PhaseOneDone, ActionPlanData, actions, revenue)
        <==> forall i :: 0 <= i < |PhaseOne| ==> IsCompleted(actions, PhaseOne[i].id)
    ensures Achieved(Master, ActionPlanData, actions, revenue)
        <==> forall i :: 0 <= i < |ActionPlanData| ==> IsCompleted(actions, ActionPlanData[i].id)
    ensures Achieved(FirstStep, ActionPlanData, actions, revenue)
        <==> exists i :: 0 <= i < |ActionPlanData| && IsCompleted(actions, ActionPlanData[i].id)
  {
    CatalogShape();
    CatalogPhases(1);
  }

  /** Milestones are never lost on the reference catalog: completing more
      actions and raising revenue keeps every reached milestone reached. */
  lemma MilestonesMonotone(m: Milestone, before: Actions, after: Actions, revenue: int, laterRevenue: int)
    requires CompletionGrows(before, after) && revenue <= laterRevenue
    requires Achieved(m, ActionPlanData, before, revenue)
    ensures Achieved(m, ActionPlanData, after, laterRevenue)
  {
    CatalogShape();
    CatalogPhases(1);
    CatalogPhases(2);
    CountMonotone(ActionPlanData, before, after);
    CountMonotone(InPhase(ActionPlanData, 1), before, after);
    CountMonotone(InPhase(ActionPlanData, 2), before, after);
  }

  /** The milestones form a ladder on the reference catalog. */
  lemma MilestoneLadder(actions: Actions, revenue: int)
    ensures Achieved(PhaseOneDone, ActionPlanData, actions, revenue) ==> Achieved(QuickStart, ActionPlanData, actions, revenue)
    ensures Achieved(QuickStart, ActionPlanData, actions, revenue) ==> Achieved(FirstStep, ActionPlanData, actions, revenue)
    ensures Achieved(Master, ActionPlanData, actions, revenue)
        ==> Achieved(PhaseOneDone, ActionPlanData, actions, revenue) && Achieved(Momentum, ActionPlanData, actions, revenue)
  {
    CatalogShape();
    CatalogPhases(1);
    CatalogPhases(2);
    PhaseCountAtMostTotal(ActionPlanData, actions, 1);
    CountIsSumOfPhases(ActionPlanData, actions);
    CatalogPhases(3);
  }
}
