/** A wheel element: its fixed identity, its configuration-backed settings
    (shown, sorting priority, conditional properties), whether its keybind is
    set, its hover and exit timestamps and its presentation values, each of the
    latter overwritten by a setter of its own; and the eligibility chain
    bound, active, usable, visible. */
module Elements {
  import opened Flags
  import Eligibility

  /** C++ `uint`. */
  type uint32 = x: int | 0 <= x < 0x1_0000_0000

  /** C++ `int`. */
  type int32 = x: int | -0x8000_0000 <= x < 0x8000_0000

  /** A millisecond timestamp, kept unbounded. */
  type MsTime = nat

  /** A single-precision float, kept as its IEEE 754 bit pattern; no arithmetic
      is done on it here. */
  datatype Float32 = Float32(pattern: uint32)

  /** `glm::vec4`. */
  datatype Vec4 = Vec4(x: Float32, y: Float32, z: Float32, w: Float32)

  /** A value the configuration store may or may not hold. */
  datatype Option<T> = None | Some(value: T)

  const ONE: Float32 := Float32(0x3F80_0000)
  /** `0.8f`, the nearest single-precision value to 0.8. */
  const POINT_EIGHT: Float32 := Float32(0x3F4C_CCCD)

  /** Everything about an element that its methods may change. */
  datatype ElementState = ElementState(
    isShown: bool,
    sortingPriority: int32,
    props: ConditionalProperties,
    keybindSet: bool,
    currentHoverTime: MsTime,
    currentExitTime: MsTime,
    shadowStrength: Float32,
    colorizeAmount: Float32,
    premultiplyAlpha: bool,
    color: Vec4)

  class WheelElement {
    const elementId: uint32
    const nickname: string
    const displayName: string

    /** The configuration options, each a plain stored value. */
    var isShown: bool
    var sortingPriority: int32
    var props: ConditionalProperties

    /** `keybind_.isSet()`: whether a key combination is bound. */
    var keybindSet: bool

    var currentHoverTime: MsTime
    var currentExitTime: MsTime
    var shadowStrength: Float32
    var colorizeAmount: Float32
    var premultiplyAlpha: bool
    var color: Vec4

    /** Builds an element with the given identity. The properties option holds
        the stored value when the configuration has one and `defaultProps`
        otherwise; the other configuration options and the keybind take the
        values they are loaded with; all other fields take their in-class
        initial values. */
    constructor (id: uint32, nickname: string, category: string, displayName: string,
                 color: Vec4, defaultProps: ConditionalProperties,
                 storedProps: Option<ConditionalProperties>,
                 shown: bool, priority: int32, bound: bool)
      ensures elementId == id && this.nickname == nickname && this.displayName == displayName
      ensures storedProps == None ==> props == defaultProps
      ensures State() == ElementState(shown, priority,
                                      if storedProps.Some? then storedProps.value else defaultProps,
                                      bound, 0, 0, POINT_EIGHT, ONE, false, color)
    {
      elementId := id;
      this.nickname := nickname;
      this.displayName := displayName;
      isShown := shown;
      sortingPriority := priority;
      props := if storedProps.Some? then storedProps.value else defaultProps;
      keybindSet := bound;
      currentHoverTime := 0;
      currentExitTime := 0;
      shadowStrength := POINT_EIGHT;
      colorizeAmount := ONE;
      premultiplyAlpha := false;
      this.color := color;
    }

    /** The current values of all mutable fields. */
    function State(): ElementState
      reads this
    {
      ElementState(isShown, sortingPriority, props, keybindSet, currentHoverTime,
                   currentExitTime, shadowStrength, colorizeAmount, premultiplyAlpha, color)
    }

    method SetCurrentHoverTime(t: MsTime)
      modifies this
      ensures currentHoverTime == t
      ensures State() == old(State()).(currentHoverTime := t)
    {
      currentHoverTime := t;
    }

    method SetCurrentExitTime(t: MsTime)
      modifies this
      ensures currentExitTime == t
      ensures State() == old(State()).(currentExitTime := t)
    {
      currentExitTime := t;
    }

    method SetSortingPriority(value: int32)
      modifies this
      ensures sortingPriority == value
      ensures State() == old(State()).(sortingPriority := value)
    {
      sortingPriority := value;
    }

    method SetShadowStrength(ss: Float32)
      modifies this
      ensures shadowStrength == ss
      ensures State() == old(State()).(shadowStrength := ss)
    {
      shadowStrength := ss;
    }

    method SetColorizeAmount(ca: Float32)
      modifies this
      ensures colorizeAmount == ca
      ensures State() == old(State()).(colorizeAmount := ca)
    {
      colorizeAmount := ca;
    }

    method SetPremultiplyAlpha(pa: bool)
      modifies this
      ensures premultiplyAlpha == pa
      ensures State() == old(State()).(premultiplyAlpha := pa)
    {
      premultiplyAlpha := pa;
    }

    method SetColor(c: Vec4)
      modifies this
      ensures color == c
      ensures State() == old(State()).(color := c)
    {
      color := c;
    }

    /** `isBound`. */
    predicate IsBound()
      reads this
    {
      keybindSet
    }

    /** `isActive`: bound and shown. */
    predicate IsActive()
      reads this
    {
      IsBound() && isShown
    }

    /** `isUsable`: active, and every condition in force is permitted by the
        element's USABLE_* flags. */
    function IsUsable(cs: Eligibility.ConditionalState): (r: bool)
      reads this
      ensures r <==> keybindSet && isShown && Eligibility.AllPermitted(Usable, cs, props)
      ensures r ==> IsActive()
    {
      Eligibility.IsUsableMeaning(cs, props);
      IsActive() && Eligibility.IsUsable(cs, props)
    }

    /** `isVisible`: active, and every condition in force is permitted by the
        element's VISIBLE_* flags. */
    function IsVisible(cs: Eligibility.ConditionalState): (r: bool)
      reads this
      ensures r <==> keybindSet && isShown && Eligibility.AllPermitted(Visible, cs, props)
      ensures r ==> IsActive()
    {
      Eligibility.IsVisibleMeaning(cs, props);
      IsActive() && Eligibility.IsVisible(cs, props)
    }
  }

  /** An element without a keybind, or hidden by its configuration, is neither
      usable nor visible, whatever the state and its properties. */
  lemma InactiveNeverEligible(e: WheelElement, cs: Eligibility.ConditionalState)
    requires !e.keybindSet || !e.isShown
    ensures !e.IsUsable(cs) && !e.IsVisible(cs)
  {
  }

  /** An active element is usable and visible while no condition is in force. */
  lemma ActiveIsEligibleOutsideConditions(e: WheelElement)
    requires e.IsActive()
    ensures e.IsUsable({}) && e.IsVisible({})
  {
  }

  /** An active element whose properties contain both groups is usable and
      visible in every state; an unbound one with the same properties is neither. */
  lemma AllFlagsDecideOnlyForActive(e: WheelElement, cs: Eligibility.ConditionalState)
    requires And(e.props, Or(VISIBLE_ALL, USABLE_ALL)) == Or(VISIBLE_ALL, USABLE_ALL)
    ensures e.IsUsable(cs) <==> e.IsActive()
    ensures e.IsVisible(cs) <==> e.IsActive()
  {
    var all := Or(VISIBLE_ALL, USABLE_ALL);
    forall c | c in cs
      ensures Has(e.props, Usable, c) && Has(e.props, Visible, c)
    {
      GroupsPartitionTheFlags(Usable, c);
      GroupsPartitionTheFlags(Visible, c);
      OrHas(VISIBLE_ALL, USABLE_ALL, Usable, c);
      OrHas(VISIBLE_ALL, USABLE_ALL, Visible, c);
      AndHas(e.props, all, Usable, c);
      AndHas(e.props, all, Visible, c);
    }
  }

  /** A bound, shown element with no properties is usable and visible when no
      condition is in force, and neither in combat. */
  lemma NoPropertiesOnlyOutsideConditions(e: WheelElement)
    requires e.keybindSet && e.isShown && IsNone(e.props)
    ensures e.IsUsable({}) && e.IsVisible({})
    ensures !e.IsUsable({InCombat}) && !e.IsVisible({InCombat})
  {
  }
}
