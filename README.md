# Wheel element condition gating (GW2Radial)

GW2Radial draws radial menus ("wheels") whose entries are wheel elements. Each
element carries a set of `ConditionalProperties` flags saying in which game
conditions (underwater, on water, in combat, in World vs. World) it may be
shown (VISIBLE_*) and activated (USABLE_*). Every condition in force must be
explicitly permitted by its flag. An element also takes part only when its
keybind is set and its configuration says it is shown.

This project models the flags and their bit operators, the two evaluators
`IsUsable` and `IsVisible`, and the element with its eligibility chain
(bound, active, usable, visible) and its stored hover, exit, priority and
presentation fields.

- `flags.dfy` (module `Flags`):
  - The enumeration's underlying 32-bit `uint` is modelled as its 32 bits, least significant first.
  - `Value` maps those bits back to the unsigned number.
  - `|`, `&` and `~` work bit by bit over the whole word.
  - `Has(x, axis, c)` tests the declared flag of a group for a condition.
  - `Within(x)` says no bit outside the eight declared flags is set.
- `eligibility.dfy` (module `Eligibility`):
  - The game state `ConditionalState` is the set of conditions in force, so `notNone(cs & X)` becomes `X in cs`.
  - `IsUsable` and `IsVisible` keep the source's early-return chain in its order: combat, WvW, underwater, on water.
  - `AllPermitted` is the reference rule: "every condition in force has its flag".
  - `CheckInOrder` runs the same chain over any order of conditions.
- `wheel_element.dfy` (module `Elements`):
  - A class `WheelElement` with a `const` identity (id, nickname, display name) and the mutable fields.
  - One setter method per stored field. Each states the new value and, through the `State()` snapshot, that nothing else changed.
  - `IsUsable`/`IsVisible`, stated against the reference rule.

The getters of the header (`elementId()`, `sortingPriority()`,
`currentHoverTime()` and the others) are plain reads of the stored fields. In
the model they are the field reads themselves.

## Model

| member | source | states |
|---|---|---|
| Flags.FlagValues | GW2Radial/include/WheelElement.h:10-25 | NONE stands for 0 and the eight base flags stand for 1, 2, 4, 8, 16, 32, 64 and 128, as the enumeration declares |
| Flags.FlagIsBit | GW2Radial/include/WheelElement.h:12-25 | each base flag is exactly one bit, one of the low eight, and its number is that bit's power of two |
| Flags.BaseFlagsAreDistinctBits | GW2Radial/include/WheelElement.h:14-24 | two different (group, condition) flags share no bit |
| Flags.GroupsPartitionTheFlags | GW2Radial/include/WheelElement.h:26-27 | VISIBLE_ALL holds exactly the four VISIBLE_* flags and USABLE_ALL exactly the four USABLE_* flags; both lie within the declared bits; VISIBLE_ALL & USABLE_ALL is NONE |
| Flags.WithinIffBelow256 | GW2Radial/include/WheelElement.h:10-28 | a value has no bit outside the declared flags iff the number it stands for is below 256 |
| Flags.IsNoneAndFlag | GW2Radial/include/WheelElement.h:47-54 | `isNone(cp & FLAG)` holds exactly when that flag is clear in cp |
| Flags.Or | GW2Radial/include/WheelElement.h:30-33 | the bit-wise or operator on the whole 32-bit word, bit by bit; `OrHas`, `OrIsClosed` and `MaskedNotIsClosed` state what it does to the declared flags |
| Flags.And | GW2Radial/include/WheelElement.h:35-38 | `operator&` on the whole 32-bit word, bit by bit; `AndHas`, `AndIsClosed` and `ClearFlagIsClosed` state what it does to the declared flags |
| Flags.Not | GW2Radial/include/WheelElement.h:40-43 | `operator~` on the whole 32-bit word; `NotHas`, `NotIsWordComplement` and `NotLeavesTheDeclaredFlags` state that it flips every flag, is 0xFFFFFFFF minus its operand and leaves the declared flags |
| Flags.OrHas | GW2Radial/include/WheelElement.h:30-33 | a flag is set in the bit-wise or of a and b iff it is set in a or in b |
| Flags.AndHas | GW2Radial/include/WheelElement.h:35-38 | a flag is set in a & b iff it is set in both |
| Flags.NotHas | GW2Radial/include/WheelElement.h:40-43 | a flag is set in ~a iff it is clear in a |
| Flags.OrIsClosed | GW2Radial/include/WheelElement.h:30-33 | the bit-wise or of two values within the declared flags stays within them |
| Flags.AndIsClosed | GW2Radial/include/WheelElement.h:35-38 | & stays within the declared flags when either operand does |
| Flags.NotLeavesTheDeclaredFlags | GW2Radial/include/WheelElement.h:40-43 | ~ of any value within the declared flags has bits outside them |
| Flags.NotIsWordComplement | GW2Radial/include/WheelElement.h:40-43 | ~ is the complement of the whole 32-bit word: its number is 0xFFFFFFFF minus the operand's |
| Flags.MaskedNotIsClosed | GW2Radial/include/WheelElement.h:35-43 | ~a masked with the union of VISIBLE_ALL and USABLE_ALL stays within the declared flags, together with a fills them, and shares no bit with a |
| Flags.ClearFlagIsClosed | GW2Radial/include/WheelElement.h:35-43 | a & ~f stays within the declared flags, drops the flags of f and keeps every other flag of a |
| Eligibility.IsUsable | GW2Radial/include/WheelElement.h:45-57 | the source's chain in its order (combat, WvW, underwater, on water), returning false at the first condition in force whose USABLE_* flag is clear; `IsUsableMeaning` proves it equal to "every condition in force has its USABLE_* flag" |
| Eligibility.IsVisible | GW2Radial/include/WheelElement.h:59-71 | the same chain over the VISIBLE_* flags; `IsVisibleMeaning` proves it equal to "every condition in force has its VISIBLE_* flag" |
| Eligibility.IsUsableMeaning | GW2Radial/include/WheelElement.h:45-57 | IsUsable is true iff every condition in force has its USABLE_* flag, so it is false iff some condition in force lacks it |
| Eligibility.IsVisibleMeaning | GW2Radial/include/WheelElement.h:59-71 | IsVisible is true iff every condition in force has its VISIBLE_* flag |
| Eligibility.PermittedEachIsAll | GW2Radial/include/WheelElement.h:45-71 | checking the four conditions one by one is the same as checking every condition in force |
| Eligibility.CheckInOrder | GW2Radial/include/WheelElement.h:45-57 | the early-return chain over any sequence of conditions fails exactly when a listed condition is in force and its flag is clear |
| Eligibility.CompleteOrderChecksAll | GW2Radial/include/WheelElement.h:45-71 | a chain over an order that lists all four conditions applies the reference rule |
| Eligibility.CheckOrderIsIrrelevant | GW2Radial/include/WheelElement.h:45-71 | every order of the four checks gives the result of IsUsable and of IsVisible |
| Eligibility.NoConditionAlwaysPasses | GW2Radial/include/WheelElement.h:45-71 | with no condition in force both evaluators return true for every cp |
| Eligibility.UsableAllIsAlwaysUsable | GW2Radial/include/WheelElement.h:45-57 | properties that contain USABLE_ALL are usable in every state |
| Eligibility.VisibleAllIsAlwaysVisible | GW2Radial/include/WheelElement.h:59-71 | properties that contain VISIBLE_ALL are visible in every state |
| Eligibility.MonotoneInProperties | GW2Radial/include/WheelElement.h:45-71 | adding flags to cp never turns a true result into false, for either evaluator |
| Eligibility.AntitoneInState | GW2Radial/include/WheelElement.h:45-71 | adding conditions to the state never turns a false result into true, for either evaluator |
| Eligibility.VisibleIgnoresUsableFlags | GW2Radial/include/WheelElement.h:59-71 | two property values that agree on VISIBLE_ALL give the same IsVisible in every state |
| Eligibility.UsableIgnoresVisibleFlags | GW2Radial/include/WheelElement.h:45-57 | two property values that agree on USABLE_ALL give the same IsUsable in every state |
| Eligibility.VisibleOnlyInCombat | GW2Radial/include/WheelElement.h:45-71 | in combat, VISIBLE_ALL alone is visible but not usable |
| Eligibility.EveryConditionMustBePermitted | GW2Radial/include/WheelElement.h:59-71 | VISIBLE_UNDERWATER is visible underwater but not when underwater and in combat |
| Elements.WheelElement.constructor | GW2Radial/include/WheelElement.h:76-77 | the identity comes from the parameters, props take the stored value when the configuration holds one and the default properties otherwise, hover and exit times start at 0, shadow strength at 0.8f, colorize amount at 1.f, premultiply alpha at false |
| Elements.WheelElement.SetCurrentHoverTime | GW2Radial/include/WheelElement.h:117-120 | the getter then returns the new hover time and every other field is unchanged |
| Elements.WheelElement.SetCurrentExitTime | GW2Radial/include/WheelElement.h:127-130 | the getter then returns the new exit time and every other field is unchanged |
| Elements.WheelElement.SetSortingPriority | GW2Radial/include/WheelElement.h:97-100 | the getter then returns the new priority and every other field is unchanged |
| Elements.WheelElement.SetShadowStrength | GW2Radial/include/WheelElement.h:139-142 | the getter then returns the new shadow strength and every other field is unchanged |
| Elements.WheelElement.SetColorizeAmount | GW2Radial/include/WheelElement.h:149-152 | the getter then returns the new colorize amount and every other field is unchanged |
| Elements.WheelElement.SetPremultiplyAlpha | GW2Radial/include/WheelElement.h:159-162 | the getter then returns the new flag and every other field is unchanged |
| Elements.WheelElement.SetColor | GW2Radial/include/WheelElement.h:169-172 | the getter then returns the new colour and every other field is unchanged |
| Elements.WheelElement.IsBound | GW2Radial/include/WheelElement.h:184-187 | bound exactly when the keybind is set; the keybind is modelled only by `keybindSet` |
| Elements.WheelElement.IsActive | GW2Radial/include/WheelElement.h:189-192 | active exactly when bound and shown; `IsUsable`/`IsVisible` and `InactiveNeverEligible` state that nothing inactive is usable or visible |
| Elements.WheelElement.IsUsable | GW2Radial/include/WheelElement.h:194-197 | usable iff the keybind is set, the element is shown and every condition in force has its USABLE_* flag; usable implies active |
| Elements.WheelElement.IsVisible | GW2Radial/include/WheelElement.h:199-202 | visible iff the keybind is set, the element is shown and every condition in force has its VISIBLE_* flag; visible implies active |
| Elements.InactiveNeverEligible | GW2Radial/include/WheelElement.h:184-202 | an unbound or hidden element is neither usable nor visible, whatever the state and the properties |
| Elements.ActiveIsEligibleOutsideConditions | GW2Radial/include/WheelElement.h:189-202 | an active element is usable and visible while no condition is in force |
| Elements.AllFlagsDecideOnlyForActive | GW2Radial/include/WheelElement.h:184-202 | for properties that contain all eight flags, usable and visible are each exactly active, so an unbound element with every flag is neither |
| Elements.NoPropertiesOnlyOutsideConditions | GW2Radial/include/WheelElement.h:189-202 | a bound, shown element with NONE is usable and visible with no condition in force and neither in combat |

## Left out

- `Draw`, both `SetShaderState` overloads, the `WheelElementCB` layout and the shared constant buffer `cb_s`: these are Direct3D 11 rendering.
- `DrawPriority` and `hoverFadeIn`: the header only declares them. Their bodies are in the implementation file, which is not part of this model.
- `appearance()`, the texture, `aspectRatio_` and `texWidth_`: these come from the texture loader and play no part in the gating.
- Floating-point values: `shadowStrength_`, `colorizeAmount_` and the four components of `color_` are stored IEEE 754 bit patterns. No float arithmetic is modelled.
- `Keybind`: only `isSet()` is modelled, as the field `keybindSet`. Key capture, and changing the keybind through the non-const `keybind()` accessor, are represented only by writes to that field.
- `ConfigurationOption`: each option (`isShownOption_`, `sortingPriorityOption_`, `props_`) is a plain stored value. Persistence, change callbacks, and changes made by the settings UI are left out. In the model, `isShown` and `props` have no setter and are changed by assigning the field directly; sorting priority has its setter.
- `isNone` on `ConditionalProperties` is not defined in this header; it is modelled as equality with NONE (`Flags.IsNone`).
- `ConditionalState`: its definition, and `notNone`/`isNone` on it, are not in this header. The state is modelled as the set of conditions in force, so its numeric encoding is left out.
- `mstime`: its definition is not in this header, so timestamps are unbounded natural numbers.
- `Elements.WheelElement.constructor`: its body is in the implementation file, which is not part of this model. The model:
  - takes the values shown, sorting priority and keybind state are loaded with as parameters;
  - takes the stored properties as an optional parameter, falling back to `defaultProps` when the configuration holds none (how the option reads its store is not part of this model);
  - stores the `color` parameter as the colour;
  - ignores `category`;
  - gives every other field its in-class initial value from the header.
- The ImGui settings menu and the shader manager: foreign UI and graphics code.
