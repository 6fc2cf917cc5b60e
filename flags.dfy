/** The `ConditionalProperties` flag set of a wheel element: an enumeration whose
    underlying type is a 32-bit `uint`, eight declared single-bit flags in two
    groups (VISIBLE_* and USABLE_*) for four game conditions, the two group
    unions, and the bit-wise `|`, `&` and `~` operators, which act on the whole
    32-bit word.

    A word is modelled by its 32 bits, least significant first; `Value` gives
    the unsigned number those bits stand for. */
module Flags {


  /** A 32-bit unsigned word, bit `k` at index `k`. */
  type Word = s: seq<bool> | |s| == 32 witness Zeros(32)

  /** `n` clear bits. */
  function Zeros(n: nat): (r: seq<bool>)
    ensures |r| == n && forall i | 0 <= i < n :: !r[i]
  {
    seq(n, i => false)
  }

  /** The underlying `uint` of the enumeration; any 32-bit pattern is a value of it. */
  type ConditionalProperties = Word

  function Pow2(k: nat): nat {
    if k == 0 then 1 else 2 * Pow2(k - 1)
  }

  /** The unsigned number whose binary digits, least significant first, are `s`. */
  function Value(s: seq<bool>): nat {
    if s == [] then 0 else (if s[0] then 1 else 0) + 2 * Value(s[1..])
  }

  /** The word with only bit `k` set. */
  function Bit(k: nat): Word
    requires k < 32
  {
    seq(32, i => i == k)
  }

  const NONE: ConditionalProperties := Zeros(32)

  const VISIBLE_UNDERWATER: ConditionalProperties := Bit(0)
  const VISIBLE_ON_WATER: ConditionalProperties := Bit(1)

  const USABLE_UNDERWATER: ConditionalProperties := Bit(2)
  const USABLE_ON_WATER: ConditionalProperties := Bit(3)

  const VISIBLE_IN_COMBAT: ConditionalProperties := Bit(4)
  const USABLE_IN_COMBAT: ConditionalProperties := Bit(5)

  const VISIBLE_WVW: ConditionalProperties := Bit(6)
  const USABLE_WVW: ConditionalProperties := Bit(7)

  const VISIBLE_ALL: ConditionalProperties :=
    Or(Or(Or(VISIBLE_UNDERWATER, VISIBLE_ON_WATER), VISIBLE_IN_COMBAT), VISIBLE_WVW)
  const USABLE_ALL: ConditionalProperties :=
    Or(Or(Or(USABLE_UNDERWATER, USABLE_ON_WATER), USABLE_IN_COMBAT), USABLE_WVW)

  /** `operator|`, bit by bit over the whole word. */
  function Or(a: ConditionalProperties, b: ConditionalProperties): ConditionalProperties {
    seq(32, i requires 0 <= i < 32 => a[i] || b[i])
  }

  /** `operator&`, bit by bit over the whole word. */
  function And(a: ConditionalProperties, b: ConditionalProperties): ConditionalProperties {
    seq(32, i requires 0 <= i < 32 => a[i] && b[i])
  }

  /** `operator~`, complementing every bit of the whole word. */
  function Not(a: ConditionalProperties): ConditionalProperties {
    seq(32, i requires 0 <= i < 32 => !a[i])
  }

  /** The four game conditions a flag can speak about. */
  datatype Condition = Underwater | OnWater | InCombat | InWvW

  /** The two groups of flags: may the element be shown, may it be activated. */
  datatype Axis = Visible | Usable

  /** The bit the declared flag of `axis` for `c` occupies. */
  function Position(axis: Axis, c: Condition): nat {
    match axis
    case Visible =>
      (match c
       case Underwater => 0
       case OnWater => 1
       case InCombat => 4
       case InWvW => 6)
    case Usable =>
      (match c
       case Underwater => 2
       case OnWater => 3
       case InCombat => 5
       case InWvW => 7)
  }

  /** The declared flag of a group for a condition; the eight pairs name the
      eight base flags. */
  function Flag(axis: Axis, c: Condition): ConditionalProperties {
    match axis
    case Visible =>
      (match c
       case Underwater => VISIBLE_UNDERWATER
       case OnWater => VISIBLE_ON_WATER
       case InCombat => VISIBLE_IN_COMBAT
       case InWvW => VISIBLE_WVW)
    case Usable =>
      (match c
       case Underwater => USABLE_UNDERWATER
       case OnWater => USABLE_ON_WATER
       case InCombat => USABLE_IN_COMBAT
       case InWvW => USABLE_WVW)
  }

  /** The flag of `axis` for `c` is set in `x`. */
  predicate Has(x: ConditionalProperties, axis: Axis, c: Condition) {
    x[Position(axis, c)]
  }

  /** `isNone`: no bit is set. */
  predicate IsNone(x: ConditionalProperties) {
    x == NONE
  }

  /** No bit of `x` lies outside the eight declared flags. */
  predicate Within(x: ConditionalProperties) {
    forall i | 8 <= i < 32 :: !x[i]
  }

  /** `cp & flag` is empty exactly when the flag is clear in `cp`: the test the
      evaluators make. */
  lemma IsNoneAndFlag(x: ConditionalProperties, axis: Axis, c: Condition)
    ensures IsNone(And(x, Flag(axis, c))) <==> !Has(x, axis, c)
  {
    var k := Position(axis, c);
    assert Flag(axis, c) == Bit(k);
    if !Has(x, axis, c) {
      assert And(x, Bit(k)) == NONE;
    } else {
      assert And(x, Bit(k))[k];
    }
  }

  /** A declared flag is set in `a | b` iff it is set in `a` or in `b`. */
  lemma OrHas(a: ConditionalProperties, b: ConditionalProperties, axis: Axis, c: Condition)
    ensures Has(Or(a, b), axis, c) <==> Has(a, axis, c) || Has(b, axis, c)
  {
  }

  /** A declared flag is set in `a & b` iff it is set in both. */
  lemma AndHas(a: ConditionalProperties, b: ConditionalProperties, axis: Axis, c: Condition)
    ensures Has(And(a, b), axis, c) <==> Has(a, axis, c) && Has(b, axis, c)
  {
  }

  /** A declared flag is set in `~a` iff it is clear in `a`. */
  lemma NotHas(a: ConditionalProperties, axis: Axis, c: Condition)
    ensures Has(Not(a), axis, c) <==> !Has(a, axis, c)
  {
  }

  /** `|` is closed over the declared flags. */
  lemma OrIsClosed(a: ConditionalProperties, b: ConditionalProperties)
    requires Within(a) && Within(b)
    ensures Within(Or(a, b))
  {
  }

  /** `&` is closed over the declared flags as soon as either operand is. */
  lemma AndIsClosed(a: ConditionalProperties, b: ConditionalProperties)
    requires Within(a) || Within(b)
    ensures Within(And(a, b))
  {
  }

  /** `~` alone is not closed: the complement of any value within the declared
      flags carries bits outside them. */
  lemma NotLeavesTheDeclaredFlags(a: ConditionalProperties)
    requires Within(a)
    ensures !Within(Not(a))
  {
    assert Not(a)[8];
  }

  /** `~` masked with the union of both groups is closed: it gives the declared
      complement, which with the operand fills the declared set and shares no bit
      with it. */
  lemma MaskedNotIsClosed(a: ConditionalProperties)
    requires Within(a)
    ensures Within(And(Not(a), Or(VISIBLE_ALL, USABLE_ALL)))
    ensures Or(a, And(Not(a), Or(VISIBLE_ALL, USABLE_ALL))) == Or(VISIBLE_ALL, USABLE_ALL)
    ensures IsNone(And(a, And(Not(a), Or(VISIBLE_ALL, USABLE_ALL))))
  {
  }

  /** Clearing flags with `a & ~f` keeps a value within the declared set, clears
      every declared flag of `f` and keeps every other one. */
  lemma ClearFlagIsClosed(a: ConditionalProperties, f: ConditionalProperties, axis: Axis, c: Condition)
    requires Within(a)
    ensures Within(And(a, Not(f)))
    ensures Has(And(a, Not(f)), axis, c) <==> Has(a, axis, c) && !Has(f, axis, c)
  {
  }

  /** Each base flag is the single bit its (group, condition) pair names, one of
      the low eight, and the number it stands for is that bit's power of two. */
  lemma FlagIsBit(axis: Axis, c: Condition)
    ensures Position(axis, c) < 8 && Flag(axis, c) == Bit(Position(axis, c))
    ensures Value(Flag(axis, c)) == Pow2(Position(axis, c))
  {
    ValueOfBit(32, Position(axis, c));
  }

  /** Two different (group, condition) pairs name flags that share no bit. */
  lemma BaseFlagsAreDistinctBits(a1: Axis, c1: Condition, a2: Axis, c2: Condition)
    requires (a1, c1) != (a2, c2)
    ensures IsNone(And(Flag(a1, c1), Flag(a2, c2)))
  {
  }

  /** The flag constants stand for the numbers the enumeration declares. */
  lemma FlagValues()
    ensures Value(NONE) == 0
    ensures Value(VISIBLE_UNDERWATER) == 1 && Value(VISIBLE_ON_WATER) == 2
    ensures Value(USABLE_UNDERWATER) == 4 && Value(USABLE_ON_WATER) == 8
    ensures Value(VISIBLE_IN_COMBAT) == 16 && Value(USABLE_IN_COMBAT) == 32
    ensures Value(VISIBLE_WVW) == 64 && Value(USABLE_WVW) == 128
  {
    ValueOfZeros(32);
    ValueOfBit(32, 0);
    ValueOfBit(32, 1);
    ValueOfBit(32, 2);
    ValueOfBit(32, 3);
    ValueOfBit(32, 4);
    ValueOfBit(32, 5);
    ValueOfBit(32, 6);
    ValueOfBit(32, 7);
  }

  /** VISIBLE_ALL and USABLE_ALL are the two groups exactly: each holds every
      flag of its own group, no flag of the other group and no bit outside the
      declared ones, so the two share no bit. */
  lemma GroupsPartitionTheFlags(axis: Axis, c: Condition)
    ensures Within(VISIBLE_ALL) && Within(USABLE_ALL)
    ensures Has(VISIBLE_ALL, axis, c) <==> axis == Visible
    ensures Has(USABLE_ALL, axis, c) <==> axis == Usable
    ensures IsNone(And(VISIBLE_ALL, USABLE_ALL))
  {
  }

  /** A value lies within the declared flags iff the number it stands for is
      below 256. */
  lemma WithinIffBelow256(x: ConditionalProperties)
    ensures Within(x) <==> Value(x) < 256
  {
    ValueBelowPow2(x, 8);
    assert Pow2(8) == 256;
  }

  /** `~` on the whole word is the 32-bit complement 0xFFFFFFFF - x. */
  lemma NotIsWordComplement(a: ConditionalProperties)
    ensures Value(Not(a)) == 0xFFFF_FFFF - Value(a)
  {
    ValueOfComplement(a);
    assert Not(a) == seq(|a|, i requires 0 <= i < |a| => !a[i]);
    Pow2Of32();
  }

  // Numbers of bit sequences of any length, by induction on the length.

  lemma {:induction false} ValueOfZeros(n: nat)
    ensures Value(Zeros(n)) == 0
  {
    if n > 0 {
      assert Zeros(n)[1..] == Zeros(n - 1);
      ValueOfZeros(n - 1);
    }
  }

  lemma {:induction false} ValueOfBit(n: nat, k: nat)
    requires k < n
    ensures Value(seq(n, i => i == k)) == Pow2(k)
  {
    var s := seq(n, i => i == k);
    if k == 0 {
      assert s[1..] == Zeros(n - 1);
      ValueOfZeros(n - 1);
    } else {
      assert s[1..] == seq(n - 1, i => i == k - 1);
      ValueOfBit(n - 1, k - 1);
    }
  }

  lemma {:induction false} ValueZeroIff(s: seq<bool>)
    ensures Value(s) == 0 <==> forall i | 0 <= i < |s| :: !s[i]
  {
    if s != [] {
      ValueZeroIff(s[1..]);
      assert (forall i | 0 <= i < |s| - 1 :: !s[1..][i]) <==> (forall i | 1 <= i < |s| :: !s[i]) by {
        forall i | 1 <= i < |s| ensures s[i] == s[1..][i - 1] { }
      }
    }
  }

  lemma {:induction false} ValueBelowPow2(s: seq<bool>, k: nat)
    requires k <= |s|
    ensures Value(s) < Pow2(k) <==> forall i | k <= i < |s| :: !s[i]
  {
    if k == 0 {
      ValueZeroIff(s);
    } else {
      ValueBelowPow2(s[1..], k - 1);
      assert (forall i | k - 1 <= i < |s| - 1 :: !s[1..][i]) <==> (forall i | k <= i < |s| :: !s[i]) by {
        forall i | k <= i < |s| ensures s[i] == s[1..][i - 1] { }
      }
    }
  }

  lemma {:induction false} ValueOfComplement(s: seq<bool>)
    ensures Value(seq(|s|, i requires 0 <= i < |s| => !s[i])) == Pow2(|s|) - 1 - Value(s)
  {
    var t := seq(|s|, i requires 0 <= i < |s| => !s[i]);
    if s != [] {
      assert t[1..] == seq(|s[1..]|, i requires 0 <= i < |s[1..]| => !s[1..][i]);
      ValueOfComplement(s[1..]);
    }
  }

  lemma Pow2Of32()
    ensures Pow2(32) == 0x1_0000_0000
  {
    assert Pow2(8) == 256;
    Pow2Sum(8, 8);
    assert Pow2(16) == 0x1_0000;
    Pow2Sum(16, 16);
  }

  lemma {:induction false} Pow2Sum(j: nat, k: nat)
    ensures Pow2(j + k) == Pow2(j) * Pow2(k)
  {
    if k > 0 {
      Pow2Sum(j, k - 1);
    }
  }
}
