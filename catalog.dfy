/** The fixed, ordered list of 18 action items of the 90-day plan
    (`ACTION_PLAN_DATA`), and the queries on it that the tracker uses. */
module Catalog {
  import opened Common

  datatype Priority = Critical | Important | Normal

  /** Position of a priority in the order in which the next action is chosen. */
  function Rank(p: Priority): (r: nat)
    ensures r < 3
  {
    match p
    case Critical => 0
    case Important => 1
    case Normal => 2
  }

  /** The priorities in the order the next-action search visits them. */
  const Priorities: seq<Priority> := [Critical, Important, Normal]

  /** An action item. Title, description and emoji are display text and are not kept.
      `preCompleted` items are seeded as done when the plan is created, dated
      `preCompletedDate` when one is given. */
  datatype ActionItem = ActionItem(
    id: string,
    phase: int,
    priority: Priority,
    preCompleted: bool,
    preCompletedDate: Option<Day>)

  /** 2026-02-20, the pre-completion date of the X Premium item. */
  const XPremiumDate: Day := 20504

  /** Phase 1, days 0-30. */
  const PhaseOne: seq<ActionItem> := [
    ActionItem("p1_1", 1, Critical, false, None),
    ActionItem("p1_2", 1, Critical, true, Some(XPremiumDate)),
    ActionItem("p1_3", 1, Important, false, None),
    ActionItem("p1_4", 1, Important, false, None),
    ActionItem("p1_5", 1, Normal, false, None),
    ActionItem("p1_6", 1, Normal, false, None)
  ]

  /** Phase 2, days 31-60. */
  const PhaseTwo: seq<ActionItem> := [
    ActionItem("p2_1", 2, Critical, false, None),
    ActionItem("p2_2", 2, Critical, false, None),
    ActionItem("p2_3", 2, Important, false, None),
    ActionItem("p2_4", 2, Important, false, None),
    ActionItem("p2_5", 2, Normal, false, None),
    ActionItem("p2_6", 2, Normal, false, None)
  ]

  /** Phase 3, days 61-90. */
  const PhaseThree: seq<ActionItem> := [
    ActionItem("p3_1", 3, Critical, false, None),
    ActionItem("p3_2", 3, Critical, false, None),
    ActionItem("p3_3", 3, Important, false, None),
    ActionItem("p3_4", 3, Important, false, None),
    ActionItem("p3_5", 3, Normal, false, None),
    ActionItem("p3_6", 3, Normal, false, None)
  ]

  /** `ACTION_PLAN_DATA`, in definition order. */
  const ActionPlanData: seq<ActionItem> := PhaseOne + PhaseTwo + PhaseThree

  /** No two items share an id. */
  predicate UniqueIds(items: seq<ActionItem>) {
    forall i, j :: 0 <= i < j < |items| ==> items[i].id != items[j].id
  }

  /** Every item belongs to phase 1, 2 or 3. */
  predicate PhasesInRange(items: seq<ActionItem>) {
    forall i :: 0 <= i < |items| ==> 1 <= items[i].phase <= 3
  }

  /** `items.filter(a => a.phase === phase)`: the items of one phase, in catalog order. */
  function InPhase(items: seq<ActionItem>, phase: int): (r: seq<ActionItem>)
    ensures |r| <= |items|
    ensures forall i :: 0 <= i < |r| ==> r[i].phase == phase
  {
    if items == [] then []
    else (if items[0].phase == phase then [items[0]] else []) + InPhase(items[1..], phase)
  }

  /** The filter drops nothing of the phase: every item of the phase is kept. */
  lemma {:induction false} InPhaseKeeps(items: seq<ActionItem>, phase: int)
    ensures forall i :: 0 <= i < |items| && items[i].phase == phase ==> items[i] in InPhase(items, phase)
  {
    if items != [] {
      InPhaseKeeps(items[1..], phase);
      forall i | 0 <= i < |items| && items[i].phase == phase
        ensures items[i] in InPhase(items, phase)
      {
        if i > 0 {
          assert items[i] == items[1..][i - 1];
        }
      }
    }
  }

  lemma {:induction false} InPhaseAppend(a: seq<ActionItem>, b: seq<ActionItem>, phase: int)
    ensures InPhase(a + b, phase) == InPhase(a, phase) + InPhase(b, phase)
  {
    if a == [] {
      assert a + b == b;
    } else {
      var head := if a[0].phase == phase then [a[0]] else [];
      assert (a + b)[0] == a[0] && (a + b)[1..] == a[1..] + b;
      InPhaseAppend(a[1..], b, phase);
      calc {
        InPhase(a + b, phase);
        head + InPhase(a[1..] + b, phase);
        head + (InPhase(a[1..], phase) + InPhase(b, phase));
        (head + InPhase(a[1..], phase)) + InPhase(b, phase);
      }
    }
  }

  /** Filtering a block whose items all have phase `of` keeps all of it, or none. */
  lemma {:induction false} InPhaseBlock(items: seq<ActionItem>, of: int, phase: int)
    requires forall i :: 0 <= i < |items| ==> items[i].phase == of
    ensures InPhase(items, phase) == if of == phase then items else []
  {
    if items != [] {
      InPhaseBlock(items[1..], of, phase);
      assert items == [items[0]] + items[1..];
    }
  }

  /** Every item of `items` is in phase `phase`, and the character after the
      `p` of its id is `tag`. */
  predicate Block(items: seq<ActionItem>, phase: int, tag: char) {
    forall i :: 0 <= i < |items| ==> items[i].phase == phase && |items[i].id| >= 2 && items[i].id[1] == tag
  }

  /** Every id has a character after its `p`, between `lo` and `hi`. */
  predicate TagsWithin(items: seq<ActionItem>, lo: char, hi: char) {
    forall i :: 0 <= i < |items| ==> |items[i].id| >= 2 && lo <= items[i].id[1] <= hi
  }

  lemma PhaseOneShape()
    ensures |PhaseOne| == 6 && Block(PhaseOne, 1, '1') && UniqueIds(PhaseOne)
  {
  }

  lemma PhaseTwoShape()
    ensures |PhaseTwo| == 6 && Block(PhaseTwo, 2, '2') && UniqueIds(PhaseTwo)
  {
  }

  lemma PhaseThreeShape()
    ensures |PhaseThree| == 6 && Block(PhaseThree, 3, '3') && UniqueIds(PhaseThree)
  {
  }

  /** Two lists without repeated ids, whose id tags lie in disjoint ranges,
      join into one without repeated ids. */
  lemma JoinUnique(a: seq<ActionItem>, b: seq<ActionItem>, lo: char, mid: char, next: char, hi: char)
    requires UniqueIds(a) && UniqueIds(b)
    requires TagsWithin(a, lo, mid) && TagsWithin(b, next, hi) && lo <= mid < next <= hi
    ensures UniqueIds(a + b) && TagsWithin(a + b, lo, hi)
  {
    forall i, j | 0 <= i < j < |a + b| ensures (a + b)[i].id != (a + b)[j].id {
      if j < |a| {
        assert (a + b)[i] == a[i] && (a + b)[j] == a[j];
      } else if i >= |a| {
        assert (a + b)[i] == b[i - |a|] && (a + b)[j] == b[j - |a|];
      } else {
        assert (a + b)[i] == a[i] && (a + b)[j] == b[j - |a|];
        assert (a + b)[i].id[1] != (a + b)[j].id[1];
      }
    }
  }

  /** Three blocks of phases 1, 2 and 3 with distinct tags, each without
      repeated ids, form a list without repeated ids whose phases are in range. */
  lemma ThreeBlocksShape(a: seq<ActionItem>, b: seq<ActionItem>, c: seq<ActionItem>)
    requires Block(a, 1, '1') && Block(b, 2, '2') && Block(c, 3, '3')
    requires UniqueIds(a) && UniqueIds(b) && UniqueIds(c)
    ensures UniqueIds(a + b + c) && PhasesInRange(a + b + c)
  {
    JoinUnique(a, b, '1', '1', '2', '2');
    JoinUnique(a + b, c, '1', '2', '3', '3');
    forall i | 0 <= i < |a + b + c| ensures 1 <= (a + b + c)[i].phase <= 3 {
      if i < |a| {
        assert (a + b + c)[i] == a[i];
      } else if i < |a| + |b| {
        assert (a + b + c)[i] == b[i - |a|];
      } else {
        assert (a + b + c)[i] == c[i - |a| - |b|];
      }
    }
  }

  /** Filtering three blocks of phases 1, 2 and 3 by a phase gives that phase's block. */
  lemma ThreeBlocksByPhase(a: seq<ActionItem>, b: seq<ActionItem>, c: seq<ActionItem>, phase: int)
    requires Block(a, 1, '1') && Block(b, 2, '2') && Block(c, 3, '3')
    requires 1 <= phase <= 3
    ensures InPhase(a + b + c, phase) == if phase == 1 then a else if phase == 2 then b else c
  {
    InPhaseAppend(a + b, c, phase);
    InPhaseAppend(a, b, phase);
    InPhaseBlock(a, 1, phase);
    InPhaseBlock(b, 2, phase);
    InPhaseBlock(c, 3, phase);
    if phase == 1 {
      assert a + [] + [] == a;
    } else if phase == 2 {
      assert [] + b + [] == b;
    } else {
      assert [] + [] + c == c;
    }
  }

  /** The catalog has 18 items, no repeated id, and every phase is 1, 2 or 3. */
  lemma CatalogShape()
    ensures |ActionPlanData| == 18
    ensures UniqueIds(ActionPlanData)
    ensures PhasesInRange(ActionPlanData)
  {
    PhaseOneShape();
    PhaseTwoShape();
    PhaseThreeShape();
    ThreeBlocksShape(PhaseOne, PhaseTwo, PhaseThree);
  }

  /** Each phase of the reference catalog is exactly its block of six items. */
  lemma CatalogPhases(phase: int)
    requires 1 <= phase <= 3
    ensures InPhase(ActionPlanData, phase) == if phase == 1 then PhaseOne else if phase == 2 then PhaseTwo else PhaseThree
    ensures |InPhase(ActionPlanData, phase)| == 6
  {
    PhaseOneShape();
    PhaseTwoShape();
    PhaseThreeShape();
    ThreeBlocksByPhase(PhaseOne, PhaseTwo, PhaseThree, phase);
  }
}
