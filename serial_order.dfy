/**
 * RFC 1982 section 3.2 comparison of two raw `w`-bit values i1 and i2, as
 * the operators of SerialNumber.h define it: equality is plain equality,
 * and "less" / "greater" look at the numerical difference against the
 * critical distance 2^(w-1).  At exactly that distance every ordering
 * operator answers false.
 *
 * Each function carries, as its contract, what the comparison means on the
 * circle of 2^w values: i1 < i2 exactly when i2 is reached from i1 by fewer
 * than 2^(w-1) increments (see SerialMath.Forward).
 */
module SerialOrder {
  import opened SerialMath

  /** Both raw operands are values of the `w`-bit unsigned type. */
  predicate InRange(w: nat, i1: nat, i2: nat)
  {
    w >= 1 && i1 < Modulus(w) && i2 < Modulus(w)
  }

  /** `==`: plain numeric equality; no step leads from i1 to i2. */
  function Eq(w: nat, i1: nat, i2: nat): (r: bool)
    requires InRange(w, i1, i2)
    ensures r <==> Forward(w, i1, i2) == 0
  {
    i1 == i2
  }

  /** `!=`: the negation of `==`. */
  function Ne(w: nat, i1: nat, i2: nat): (r: bool)
    requires InRange(w, i1, i2)
    ensures r <==> Forward(w, i1, i2) != 0
  {
    !Eq(w, i1, i2)
  }

  /** `<`: i2 lies strictly ahead of i1 by less than half the circle. */
  function Lt(w: nat, i1: nat, i2: nat): (r: bool)
    requires InRange(w, i1, i2)
    ensures r <==> 0 < Forward(w, i1, i2) < Half(w)
  {
    if i1 == i2 then false
    else if i1 < i2 then i2 - i1 < Half(w)
    else i1 - i2 > Half(w)
  }

  /** `>`: i1 lies strictly ahead of i2 by less than half the circle. */
  function Gt(w: nat, i1: nat, i2: nat): (r: bool)
    requires InRange(w, i1, i2)
    ensures r <==> 0 < Forward(w, i2, i1) < Half(w)
  {
    if i1 == i2 then false
    else if i1 < i2 then i2 - i1 > Half(w)
    else i1 - i2 < Half(w)
  }

  /** `<=`: i2 is i1 or lies ahead of it by less than half the circle. */
  function Le(w: nat, i1: nat, i2: nat): (r: bool)
    requires InRange(w, i1, i2)
    ensures r <==> Forward(w, i1, i2) < Half(w)
  {
    Eq(w, i1, i2) || Lt(w, i1, i2)
  }

  /** `>=`: i1 is i2 or lies ahead of it by less than half the circle. */
  function Ge(w: nat, i1: nat, i2: nat): (r: bool)
    requires InRange(w, i1, i2)
    ensures r <==> Forward(w, i2, i1) < Half(w)
  {
    Eq(w, i1, i2) || Gt(w, i1, i2)
  }

  /**
   * The pairs at the critical distance, for which RFC 1982 leaves the order
   * undefined: their raw values differ by exactly 2^(w-1), in either order.
   */
  predicate Critical(w: nat, i1: nat, i2: nat)
    requires InRange(w, i1, i2)
    ensures Critical(w, i1, i2) <==> (i1 + Half(w) == i2 || i2 + Half(w) == i1)
  {
    Forward(w, i1, i2) == Half(w)
  }

  /** The six comparison operators, one constructor each. */
  datatype Relation = Equal | Unequal | Less | Greater | LessOrEqual | GreaterOrEqual

  /** The operator `rel` applied to the raw values i1 and i2. */
  function Holds(rel: Relation, w: nat, i1: nat, i2: nat): (r: bool)
    requires InRange(w, i1, i2)
    ensures r == ByDistance(rel, Forward(w, i1, i2), Half(w))
  {
    match rel
    case Equal => Eq(w, i1, i2)
    case Unequal => Ne(w, i1, i2)
    case Less => Lt(w, i1, i2)
    case Greater => Gt(w, i1, i2)
    case LessOrEqual => Le(w, i1, i2)
    case GreaterOrEqual => Ge(w, i1, i2)
  }

  /**
   * Reference meaning of each operator in terms of the upward distance `d`
   * from the left to the right operand and the critical distance `half`.
   */
  predicate ByDistance(rel: Relation, d: nat, half: nat)
  {
    match rel
    case Equal => d == 0
    case Unequal => d != 0
    case Less => 0 < d < half
    case Greater => d > half
    case LessOrEqual => d < half
    case GreaterOrEqual => d == 0 || d > half
  }

  /**
   * In the reference meaning, `!=` is the negation of `==`, `<=` is `==` or
   * `<`, and `>=` is `==` or `>`, and `==`, `<` and `>` exclude each other.
   */
  lemma ComposedOperators(d: nat, half: nat)
    requires half >= 1
    ensures ByDistance(Unequal, d, half) <==> !ByDistance(Equal, d, half)
    ensures ByDistance(LessOrEqual, d, half) <==> ByDistance(Equal, d, half) || ByDistance(Less, d, half)
    ensures ByDistance(GreaterOrEqual, d, half) <==> ByDistance(Equal, d, half) || ByDistance(Greater, d, half)
    ensures !(ByDistance(Less, d, half) && ByDistance(Greater, d, half))
    ensures ByDistance(Equal, d, half) ==> !ByDistance(Less, d, half) && !ByDistance(Greater, d, half)
  {
  }

  /** The operator obtained by swapping the operands: `a < b` is `b > a`. */
  function Converse(rel: Relation): (c: Relation)
    ensures (c == rel) <==> (rel == Equal || rel == Unequal)
  {
    match rel
    case Equal => Equal
    case Unequal => Unequal
    case Less => Greater
    case Greater => Less
    case LessOrEqual => GreaterOrEqual
    case GreaterOrEqual => LessOrEqual
  }

  /** Two serial numbers are equal iff their raw values are; `!=` negates `==`. */
  lemma EqualityIsPlain(w: nat, a: nat, b: nat)
    requires InRange(w, a, b)
    ensures Eq(w, a, b) <==> a == b
    ensures Eq(w, a, b) == Eq(w, b, a)
    ensures Ne(w, a, b) <==> !Eq(w, a, b)
  {
  }

  /** `<` is exactly the formula of RFC 1982 section 3.2 for "s1 is less than s2". */
  lemma LessIsRfcFormula(w: nat, a: nat, b: nat)
    requires InRange(w, a, b)
    ensures Lt(w, a, b) <==>
      a != b && ((a < b && b - a < Half(w)) || (a > b && a - b > Half(w)))
  {
  }

  /** `>` is exactly the formula of RFC 1982 section 3.2 for "s1 is greater than s2". */
  lemma GreaterIsRfcFormula(w: nat, a: nat, b: nat)
    requires InRange(w, a, b)
    ensures Gt(w, a, b) <==>
      a != b && ((a < b && b - a > Half(w)) || (a > b && a - b < Half(w)))
  {
  }

  /** Swapping the operands turns `<` into `>` and `<=` into `>=`. */
  lemma OperandsSwap(w: nat, a: nat, b: nat)
    requires InRange(w, a, b)
    ensures Lt(w, a, b) == Gt(w, b, a)
    ensures Le(w, a, b) == Ge(w, b, a)
  {
  }

  /** Every operator agrees with its converse on swapped operands. */
  lemma ConverseHolds(rel: Relation, w: nat, a: nat, b: nat)
    requires InRange(w, a, b)
    ensures Holds(Converse(rel), w, b, a) == Holds(rel, w, a, b)
  {
    if a != b {
      ForwardRoundTrip(w, a, b);
    }
  }

  /** A serial number is equal to itself, `<=` and `>=` it, and neither `<` nor `>` it. */
  lemma Reflexive(w: nat, a: nat)
    requires InRange(w, a, a)
    ensures Eq(w, a, a) && !Ne(w, a, a)
    ensures Le(w, a, a) && Ge(w, a, a)
    ensures !Lt(w, a, a) && !Gt(w, a, a)
  {
  }

  /** `<` never holds in both directions, and never together with `>`. */
  lemma Asymmetric(w: nat, a: nat, b: nat)
    requires InRange(w, a, b)
    ensures Lt(w, a, b) ==> !Lt(w, b, a) && !Gt(w, a, b)
  {
    if a != b {
      ForwardRoundTrip(w, a, b);
    }
  }

  /** The critical case does not depend on the operand order, and never holds of equal values. */
  lemma CriticalIsSymmetric(w: nat, a: nat, b: nat)
    requires InRange(w, a, b)
    ensures Critical(w, a, b) == Critical(w, b, a)
    ensures Critical(w, a, b) ==> a != b
  {
  }

  /**
   * The policy for the undefined case: at the critical distance `<`, `>`,
   * `<=` and `>=` are false in both operand orders, and only `!=` is true.
   */
  lemma CriticalDistance(w: nat, a: nat, b: nat)
    requires InRange(w, a, b) && Critical(w, a, b)
    ensures !Lt(w, a, b) && !Lt(w, b, a) && !Gt(w, a, b) && !Gt(w, b, a)
    ensures !Le(w, a, b) && !Le(w, b, a) && !Ge(w, a, b) && !Ge(w, b, a)
    ensures !Eq(w, a, b) && Ne(w, a, b) && Ne(w, b, a)
  {
    ForwardRoundTrip(w, a, b);
  }

  /**
   * Exactly one of four cases holds: equal, less, greater, or the critical
   * distance.  So "neither less nor greater" does not imply "equal".
   */
  lemma Tetrachotomy(w: nat, a: nat, b: nat)
    requires InRange(w, a, b)
    ensures (if a == b then 1 else 0) + (if Lt(w, a, b) then 1 else 0)
          + (if Gt(w, a, b) then 1 else 0) + (if Critical(w, a, b) then 1 else 0) == 1
    ensures !Lt(w, a, b) && !Gt(w, a, b) ==> (a == b <==> !Critical(w, a, b))
  {
    if a != b {
      ForwardRoundTrip(w, a, b);
    }
  }

  /**
   * A value compares below its increment, including the wrap from 2^w - 1
   * to 0 (255 < 0 for uint8_t), whenever the width has at least two bits.
   */
  lemma IncrementIsGreater(w: nat, a: nat)
    requires w >= 2 && a < Modulus(w)
    ensures Lt(w, a, Next(w, a)) && Gt(w, Next(w, a), a)
  {
    ForwardNext(w, a);
    ForwardRoundTrip(w, a, Next(w, a));
    assert Half(w) == 2 * Half(w - 1);
  }
}
