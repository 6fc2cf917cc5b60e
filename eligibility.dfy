/** The two free evaluators of the wheel element header, `IsUsable` and
    `IsVisible`: every condition in force in the game state must be explicitly
    permitted by the matching USABLE_* (resp. VISIBLE_*) flag of the element's
    properties. */
module Eligibility {
  import opened Flags

  /** The game-state snapshot, as the set of the four conditions in force
      (IN_COMBAT, IN_WVW, UNDERWATER, ON_WATER); `notNone(cs & X)` is `X in cs`. */
  type ConditionalState = set<Condition>

  /** Reference rule: every condition in `cs` is permitted by the flag of `axis`. */
  ghost predicate AllPermitted(axis: Axis, cs: ConditionalState, cp: ConditionalProperties) {
    forall c :: c in cs ==> Has(cp, axis, c)
  }

  /** The usability evaluator, checking combat, WvW, underwater and on-water in
      that order and failing at the first condition in force whose USABLE_* flag
      is clear. */
  function IsUsable(cs: ConditionalState, cp: ConditionalProperties): bool {
    if InCombat in cs && IsNone(And(cp, USABLE_IN_COMBAT)) then false
    else if InWvW in cs && IsNone(And(cp, USABLE_WVW)) then false
    else if Underwater in cs && IsNone(And(cp, USABLE_UNDERWATER)) then false
    else if OnWater in cs && IsNone(And(cp, USABLE_ON_WATER)) then false
    else true
  }

  /** The visibility evaluator: the same chain over the VISIBLE_* flags. */
  function IsVisible(cs: ConditionalState, cp: ConditionalProperties): bool {
    if InCombat in cs && IsNone(And(cp, VISIBLE_IN_COMBAT)) then false
    else if InWvW in cs && IsNone(And(cp, VISIBLE_WVW)) then false
    else if Underwater in cs && IsNone(And(cp, VISIBLE_UNDERWATER)) then false
    else if OnWater in cs && IsNone(And(cp, VISIBLE_ON_WATER)) then false
    else true
  }

  /** The conditions are permitted one by one: the four flags a state can ask for. */
  ghost predicate PermittedEach(axis: Axis, cs: ConditionalState, cp: ConditionalProperties) {
    && (InCombat in cs ==> Has(cp, axis, InCombat))
    && (InWvW in cs ==> Has(cp, axis, InWvW))
    && (Underwater in cs ==> Has(cp, axis, Underwater))
    && (OnWater in cs ==> Has(cp, axis, OnWater))
  }

  lemma PermittedEachIsAll(axis: Axis, cs: ConditionalState, cp: ConditionalProperties)
    ensures PermittedEach(axis, cs, cp) <==> AllPermitted(axis, cs, cp)
  {
  }

  /** `IsUsable` fails iff some condition in force lacks its USABLE_* flag. */
  lemma IsUsableMeaning(cs: ConditionalState, cp: ConditionalProperties)
    ensures IsUsable(cs, cp) <==> AllPermitted(Usable, cs, cp)
  {
    IsNoneAndFlag(cp, Usable, InCombat);
    IsNoneAndFlag(cp, Usable, InWvW);
    IsNoneAndFlag(cp, Usable, Underwater);
    IsNoneAndFlag(cp, Usable, OnWater);
    assert IsUsable(cs, cp) == PermittedEach(Usable, cs, cp);
    PermittedEachIsAll(Usable, cs, cp);
  }

  /** `IsVisible` fails iff some condition in force lacks its VISIBLE_* flag. */
  lemma IsVisibleMeaning(cs: ConditionalState, cp: ConditionalProperties)
    ensures IsVisible(cs, cp) <==> AllPermitted(Visible, cs, cp)
  {
    IsNoneAndFlag(cp, Visible, InCombat);
    IsNoneAndFlag(cp, Visible, InWvW);
    IsNoneAndFlag(cp, Visible, Underwater);
    IsNoneAndFlag(cp, Visible, OnWater);
    assert IsVisible(cs, cp) == PermittedEach(Visible, cs, cp);
    PermittedEachIsAll(Visible, cs, cp);
  }

  /** The early-return chain of the evaluators run over the conditions of
      `order`, in that order: it fails exactly when some listed condition is in
      force and its flag of `axis` is clear. */
  function CheckInOrder(axis: Axis, cs: ConditionalState, cp: ConditionalProperties,
                        order: seq<Condition>): (r: bool)
    ensures r <==> forall i | 0 <= i < |order| :: order[i] in cs ==> Has(cp, axis, order[i])
  {
    if order == [] then true
    else if order[0] in cs && !Has(cp, axis, order[0]) then false
    else CheckInOrder(axis, cs, cp, order[1..])
  }

  /** The order of the checks does not matter: any order that lists all four
      conditions gives the evaluators' result. */
  lemma CheckOrderIsIrrelevant(cs: ConditionalState, cp: ConditionalProperties, order: seq<Condition>)
    requires forall c: Condition :: c in order
    ensures CheckInOrder(Usable, cs, cp, order) == IsUsable(cs, cp)
    ensures CheckInOrder(Visible, cs, cp, order) == IsVisible(cs, cp)
  {
    IsUsableMeaning(cs, cp);
    IsVisibleMeaning(cs, cp);
    CompleteOrderChecksAll(Usable, cs, cp, order);
    CompleteOrderChecksAll(Visible, cs, cp, order);
  }

  /** A chain over an order that lists every condition applies the reference rule. */
  lemma CompleteOrderChecksAll(axis: Axis, cs: ConditionalState, cp: ConditionalProperties, order: seq<Condition>)
    requires forall c: Condition :: c in order
    ensures CheckInOrder(axis, cs, cp, order) <==> AllPermitted(axis, cs, cp)
  {
    if !AllPermitted(axis, cs, cp) {
      var c :| c in cs && !Has(cp, axis, c);
      assert c in order;
      var i :| 0 <= i < |order| && order[i] == c;
      assert !(order[i] in cs ==> Has(cp, axis, order[i]));
    }
  }

  /** With no condition in force, both evaluators pass for every property value. */
  lemma NoConditionAlwaysPasses(cp: ConditionalProperties)
    ensures IsUsable({}, cp) && IsVisible({}, cp)
  {
  }

  /** Properties holding all of USABLE_ALL are usable in every state. */
  lemma UsableAllIsAlwaysUsable(cs: ConditionalState, cp: ConditionalProperties)
    requires And(cp, USABLE_ALL) == USABLE_ALL
    ensures IsUsable(cs, cp)
  {
    forall c | c in cs
      ensures Has(cp, Usable, c)
    {
      GroupsPartitionTheFlags(Usable, c);
      AndHas(cp, USABLE_ALL, Usable, c);
    }
    IsUsableMeaning(cs, cp);
  }

  /** Properties holding all of VISIBLE_ALL are visible in every state. */
  lemma VisibleAllIsAlwaysVisible(cs: ConditionalState, cp: ConditionalProperties)
    requires And(cp, VISIBLE_ALL) == VISIBLE_ALL
    ensures IsVisible(cs, cp)
  {
    forall c | c in cs
      ensures Has(cp, Visible, c)
    {
      GroupsPartitionTheFlags(Visible, c);
      AndHas(cp, VISIBLE_ALL, Visible, c);
    }
    IsVisibleMeaning(cs, cp);
  }

  /** Adding flags to the properties never turns a pass into a failure. */
  lemma MonotoneInProperties(cs: ConditionalState, cp: ConditionalProperties, extra: ConditionalProperties)
    ensures IsUsable(cs, cp) ==> IsUsable(cs, Or(cp, extra))
    ensures IsVisible(cs, cp) ==> IsVisible(cs, Or(cp, extra))
  {
  }

  /** Adding conditions to the state never turns a failure into a pass. */
  lemma AntitoneInState(cs: ConditionalState, more: ConditionalState, cp: ConditionalProperties)
    ensures !IsUsable(cs, cp) ==> !IsUsable(cs + more, cp)
    ensures !IsVisible(cs, cp) ==> !IsVisible(cs + more, cp)
  {
  }

  /** Only the VISIBLE_* flags matter to `IsVisible`: two property values that
      agree on VISIBLE_ALL are visible in the same states. */
  lemma VisibleIgnoresUsableFlags(cs: ConditionalState, cp1: ConditionalProperties, cp2: ConditionalProperties)
    requires And(cp1, VISIBLE_ALL) == And(cp2, VISIBLE_ALL)
    ensures IsVisible(cs, cp1) == IsVisible(cs, cp2)
  {
    forall c | c in cs
      ensures Has(cp1, Visible, c) == Has(cp2, Visible, c)
    {
      AndHas(cp1, VISIBLE_ALL, Visible, c);
      AndHas(cp2, VISIBLE_ALL, Visible, c);
      GroupsPartitionTheFlags(Visible, c);
    }
  }

  /** Only the USABLE_* flags matter to `IsUsable`. */
  lemma UsableIgnoresVisibleFlags(cs: ConditionalState, cp1: ConditionalProperties, cp2: ConditionalProperties)
    requires And(cp1, USABLE_ALL) == And(cp2, USABLE_ALL)
    ensures IsUsable(cs, cp1) == IsUsable(cs, cp2)
  {
    forall c | c in cs
      ensures Has(cp1, Usable, c) == Has(cp2, Usable, c)
    {
      AndHas(cp1, USABLE_ALL, Usable, c);
      AndHas(cp2, USABLE_ALL, Usable, c);
      GroupsPartitionTheFlags(Usable, c);
    }
  }

  /** In combat with only the VISIBLE_* flags, an element is visible but not usable. */
  lemma VisibleOnlyInCombat()
    ensures IsVisible({InCombat}, VISIBLE_ALL)
    ensures !IsUsable({InCombat}, VISIBLE_ALL)
  {
    GroupsPartitionTheFlags(Visible, InCombat);
    GroupsPartitionTheFlags(Usable, InCombat);
    IsVisibleMeaning({InCombat}, VISIBLE_ALL);
    IsUsableMeaning({InCombat}, VISIBLE_ALL);
  }

  /** The rule is conjunctive: underwater and in combat with only
      VISIBLE_UNDERWATER is hidden, although underwater alone is visible. */
  lemma EveryConditionMustBePermitted()
    ensures IsVisible({Underwater}, VISIBLE_UNDERWATER)
    ensures !IsVisible({Underwater, InCombat}, VISIBLE_UNDERWATER)
  {
    assert Has(VISIBLE_UNDERWATER, Visible, Underwater);
    assert !Has(VISIBLE_UNDERWATER, Visible, InCombat);
    IsVisibleMeaning({Underwater}, VISIBLE_UNDERWATER);
    IsVisibleMeaning({Underwater, InCombat}, VISIBLE_UNDERWATER);
  }
}
