/**
 * The worked examples of the SerialNumber.h documentation, for uint8_t
 * (range 0..255, critical distance 128), written as clients of the class.
 * Each table method returns the results in the documented order:
 *   s1 == s2, s1 != s2, s1 < s2, s1 <= s2, s1 > s2, s1 >= s2,
 *   s2 < s1, s2 <= s1, s2 > s1, s2 >= s1.
 */
module SerialExamples {
  import opened SerialMath
  import opened SerialOrder
  import opened SerialNumbers

  /** The sizes of the uint8_t number space. */
  lemma Uint8Sizes()
    ensures Modulus(8) == 256 && Half(8) == 128
  {
    assert Pow2(7) == 128 by {
      assert Pow2(4) == 16;
    }
  }

  /** The ten rows of one example table for two uint8_t serial numbers. */
  method Table(s1: SerialNumber, s2: SerialNumber) returns (t: seq<bool>)
    requires s1.Valid() && s2.Valid() && s1.width == s2.width
    ensures |t| == 10
    ensures t[0] == (s1.Value() == s2.Value()) && t[1] == (s1.Value() != s2.Value())
    ensures t[2] == Lt(s1.width, s1.Value(), s2.Value()) && t[3] == Le(s1.width, s1.Value(), s2.Value())
    ensures t[4] == Gt(s1.width, s1.Value(), s2.Value()) && t[5] == Ge(s1.width, s1.Value(), s2.Value())
    ensures t[6] == Lt(s1.width, s2.Value(), s1.Value()) && t[7] == Le(s1.width, s2.Value(), s1.Value())
    ensures t[8] == Gt(s1.width, s2.Value(), s1.Value()) && t[9] == Ge(s1.width, s2.Value(), s1.Value())
  {
    t := [CompareSerials(Equal, s1, s2), CompareSerials(Unequal, s1, s2),
          CompareSerials(Less, s1, s2), CompareSerials(LessOrEqual, s1, s2),
          CompareSerials(Greater, s1, s2), CompareSerials(GreaterOrEqual, s1, s2),
          CompareSerials(Less, s2, s1), CompareSerials(LessOrEqual, s2, s1),
          CompareSerials(Greater, s2, s1), CompareSerials(GreaterOrEqual, s2, s1)];
  }

  /** A trivial example: 50 and 50. */
  method TrivialExample() returns (t: seq<bool>)
    ensures t == [true, false, false, true, false, true, false, true, false, true]
  {
    Uint8Sizes();
    var s1 := new SerialNumber(8, 50);
    var s2 := new SerialNumber(8, 50);
    t := Table(s1, s2);
  }

  /** A non-surprising example: 10 and 30, distance 30 < 128. */
  method NonSurprisingExample() returns (t: seq<bool>)
    ensures t == [false, true, true, true, false, false, false, false, true, true]
  {
    Uint8Sizes();
    var s1 := new SerialNumber(8, 10);
    var s2 := new SerialNumber(8, 30);
    t := Table(s1, s2);
  }

  /** A slightly surprising example: 10 and 250; 250 wraps round to 10 in 26 steps. */
  method WraparoundExample() returns (t: seq<bool>)
    ensures t == [false, true, false, false, true, true, true, true, false, false]
  {
    Uint8Sizes();
    var s1 := new SerialNumber(8, 10);
    var s2 := new SerialNumber(8, 250);
    t := Table(s1, s2);
  }

  /**
   * The critical distance: 10 and 138 differ by exactly 128, so every ordering
   * operator is false although the two are unequal.
   */
  method CriticalDistanceExample() returns (t: seq<bool>)
    ensures t == [false, true, false, false, false, false, false, false, false, false]
  {
    Uint8Sizes();
    var s1 := new SerialNumber(8, 10);
    var s2 := new SerialNumber(8, 138);
    t := Table(s1, s2);
  }

  /** `SerialNumber<uint8_t> sn{10}; sn == 10 + 256` is true, and so is `266 == sn`. */
  method TruncationExample() returns (left: bool, right: bool)
    ensures left && right
  {
    Uint8Sizes();
    var sn := new SerialNumber(8, 10);
    left := CompareSerialPlain(Equal, sn, 10 + 256);
    right := ComparePlainSerial(Equal, 10 + 256, sn);
  }

  /**
   * Increments of a uint8_t at 255: postfix yields the old 255 and leaves 0,
   * which compares greater than 255; prefix then yields the new value 1.
   */
  method IncrementExample() returns (postfix: nat, after: nat, prefix: nat, wrappedIsGreater: bool)
    ensures postfix == 255 && after == 0 && prefix == 1 && wrappedIsGreater
  {
    Uint8Sizes();
    var s := new SerialNumber(8, 255);
    var old255 := s.PostIncrement();
    postfix := old255.Value();
    after := s.Value();
    wrappedIsGreater := CompareSerials(Greater, s, old255);
    var self := s.PreIncrement();
    prefix := self.Value();
  }
}
