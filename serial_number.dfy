/**
 * The `SerialNumber<T>` class: one mutable unsigned field `n` of a fixed
 * width, its constructors, getter, two assignment operators and the prefix
 * and postfix increments; and the comparison operators in their three
 * operand shapes (SerialNumber with SerialNumber of the same width,
 * SerialNumber with plain number, plain number with SerialNumber).
 */
module SerialNumbers {
  import opened SerialMath
  import opened SerialOrder

  class SerialNumber {
    /** The bit width of the underlying unsigned type `T`; fixed by the type. */
    const width: nat
    /** The stored unsigned value. */
    var n: nat

    /** Object invariant: `T` is a supported width and `n` is a value of `T`. */
    ghost predicate Valid()
      reads this
      ensures Valid() ==> width >= 8 && n < Modulus(width)
    {
      SupportedWidth(width) && n < Modulus(width)
    }

    /** `SerialNumber(T sn)`: stores `sn` unchanged. */
    constructor (width: nat, sn: nat)
      requires SupportedWidth(width) && sn < Modulus(width)
      ensures Valid() && this.width == width && Value() == sn
    {
      this.width := width;
      n := sn;
    }

    /** `SerialNumber()`: the default argument `T(0)`. */
    constructor Zero(width: nat)
      requires SupportedWidth(width)
      ensures Valid() && this.width == width && Value() == 0
    {
      this.width := width;
      n := 0;
    }

    /** The defaulted copy constructor: an independent object with the same value. */
    constructor Copy(other: SerialNumber)
      requires other.Valid()
      ensures Valid() && width == other.width && Value() == other.Value()
    {
      width := other.width;
      n := other.n;
    }

    /** `value()`: the stored number, always a value of `T`. */
    function Value(): (v: nat)
      reads this
      requires Valid()
      ensures v < Modulus(width)
    {
      n
    }

    /** `operator=(T sn)`: the receiver now holds `sn`; it is returned. */
    method Assign(sn: nat) returns (self: SerialNumber)
      requires Valid() && sn < Modulus(width)
      modifies this
      ensures Valid() && Value() == sn && self == this
    {
      n := sn;
      self := this;
    }

    /**
     * `operator=(const SerialNumber& sn)`: the receiver now holds the value of
     * `other`, which is left unchanged (also when it is the receiver itself).
     */
    method AssignFrom(other: SerialNumber) returns (self: SerialNumber)
      requires Valid() && other.Valid() && other.width == width
      modifies this
      ensures Valid() && Value() == old(other.Value()) && self == this
      ensures unchanged(other)
    {
      n := other.n;
      self := this;
    }

    /** Prefix `++`: advances by one modulo 2^w and returns the receiver. */
    method PreIncrement() returns (self: SerialNumber)
      requires Valid()
      modifies this
      ensures Valid() && Value() == Next(width, old(Value())) && self == this
    {
      n := Trunc(width, n + 1);
      self := this;
    }

    /**
     * Postfix `++`: advances by one modulo 2^w and returns a new object
     * holding the value from before the increment.
     */
    method PostIncrement() returns (temp: SerialNumber)
      requires Valid()
      modifies this
      ensures Valid() && Value() == Next(width, old(Value()))
      ensures fresh(temp) && temp.Valid() && temp.width == width
      ensures temp.Value() == old(Value())
    {
      temp := new SerialNumber(width, n);
      n := Trunc(width, n + 1);
    }
  }

  /** `a OP b` for two SerialNumbers of the same type. */
  function CompareSerials(rel: Relation, a: SerialNumber, b: SerialNumber): (r: bool)
    reads a, b
    requires a.Valid() && b.Valid() && a.width == b.width
    ensures r == ByDistance(rel, Forward(a.width, a.Value(), b.Value()), Half(a.width))
  {
    Holds(rel, a.width, a.Value(), b.Value())
  }

  /** `a OP x` for a SerialNumber and a plain number, which is first cast to `T`. */
  function CompareSerialPlain(rel: Relation, a: SerialNumber, x: nat): (r: bool)
    reads a
    requires a.Valid()
    ensures r == ByDistance(rel, Forward(a.width, a.Value(), Trunc(a.width, x)), Half(a.width))
  {
    Holds(rel, a.width, a.Value(), Trunc(a.width, x))
  }

  /** `x OP b` for a plain number, which is first cast to `T`, and a SerialNumber. */
  function ComparePlainSerial(rel: Relation, x: nat, b: SerialNumber): (r: bool)
    reads b
    requires b.Valid()
    ensures r == ByDistance(rel, Forward(b.width, Trunc(b.width, x), b.Value()), Half(b.width))
  {
    Holds(rel, b.width, Trunc(b.width, x), b.Value())
  }

  /**
   * Comparing with a plain number `x` gives the same answer as comparing with
   * a SerialNumber of the same type constructed from `static_cast<T>(x)`.
   */
  lemma PlainIsCastToSerial(rel: Relation, a: SerialNumber, x: nat, b: SerialNumber)
    requires a.Valid() && b.Valid() && a.width == b.width
    requires b.Value() == Trunc(a.width, x)
    ensures CompareSerialPlain(rel, a, x) == CompareSerials(rel, a, b)
    ensures ComparePlainSerial(rel, x, a) == CompareSerials(rel, b, a)
  {
  }

  /**
   * A plain operand is only seen modulo 2^w: adding any multiple of 2^w to it
   * changes no comparison (so `SerialNumber<uint8_t>{10} == 266`).
   */
  lemma PlainOperandWraps(rel: Relation, a: SerialNumber, x: nat, k: nat)
    requires a.Valid()
    ensures CompareSerialPlain(rel, a, x + k * Modulus(a.width)) == CompareSerialPlain(rel, a, x)
    ensures ComparePlainSerial(rel, x + k * Modulus(a.width), a) == ComparePlainSerial(rel, x, a)
  {
    TruncPeriodic(a.width, x, k);
  }

  /** `x OP b` is `b OP' x` for the converse operator OP'. */
  lemma PlainOperandSwap(rel: Relation, x: nat, b: SerialNumber)
    requires b.Valid()
    ensures ComparePlainSerial(rel, x, b) == CompareSerialPlain(Converse(rel), b, x)
  {
    ConverseHolds(rel, b.width, Trunc(b.width, x), b.Value());
  }

  /** `a OP b` is `b OP' a` for the converse operator OP'. */
  lemma SerialOperandSwap(rel: Relation, a: SerialNumber, b: SerialNumber)
    requires a.Valid() && b.Valid() && a.width == b.width
    ensures CompareSerials(rel, a, b) == CompareSerials(Converse(rel), b, a)
  {
    ConverseHolds(rel, a.width, a.Value(), b.Value());
  }
}
