# RFC 1982 serial numbers in Dafny

This project models `SerialNumber<T>`, a C++ value type that wraps one
unsigned integer `n` of width `w` (8, 16, 32, 64 or 128 bits) and compares
such values as serial numbers in the sense of section 3.2 of RFC 1982.
Equality is plain numeric equality. `<` and `>` compare the numeric
difference with the critical distance 2^(w-1). Because of wraparound, a value
that is numerically smaller can still compare as greater. At exactly the
critical distance, RFC 1982 leaves the order undefined. This library's
policy is that `<`, `>`, `<=` and `>=` all return false there, and only `!=`
returns true.

Modules:

- `SerialMath` (`serial_math.dfy`): the size of the number space `Modulus(w) = 2^w` and the critical distance `Half(w)`. Also `Trunc`, the conversion of a plain number to `T` (reduction mod 2^w), and `Next`, the wrapping `++`. Finally `Forward(w, a, b)`, the number of increments that lead from `a` to `b` on the circle of 2^w values. This is the reference meaning of every comparison.
- `SerialOrder` (`serial_order.dfy`): the six operators `Eq`, `Ne`, `Lt`, `Gt`, `Le`, `Ge` on raw values. Each body follows the source's case analysis, and each contract says what the operator means in terms of `Forward`. The module also has the `Relation` datatype naming the six operators, `Holds` to apply one, and the lemmas: the RFC formulas, operand swapping, reflexivity, asymmetry, the critical-distance policy, and that exactly one of equal / less / greater / critical holds.
- `SerialNumbers` (`serial_number.dfy`): the class `SerialNumber`. It has the constant `width` (the width of `T`) and the mutable field `n`, and its invariant `Valid()` says that `n < 2^width`. It provides the constructors, `Value()`, the two assignment operators and the prefix and postfix increments. Beside the class are the three operand shapes of every operator: `CompareSerials` (SerialNumber with SerialNumber of the same width), `CompareSerialPlain` and `ComparePlainSerial` (a plain operand is cast to `T` first).
- `SerialExamples` (`serial_examples.dfy`): the documentation's worked example tables for `uint8_t`, the truncation example and the increment wraparound. Each is written as a client method whose postcondition is the documented table.

A comparison `a OP b` of the C++ code is `CompareSerials(OP, a, b)`, `a OP x` is
`CompareSerialPlain(OP, a, x)` and `x OP b` is `ComparePlainSerial(OP, x, b)`,
where `OP` is one of `Equal`, `Unequal`, `Less`, `Greater`, `LessOrEqual` and
`GreaterOrEqual`.

The bodies of the comparison operators are in `src/SerialNumberOperators.hpp`,
which is not part of this model. The operators are modelled from the contract
documented in `src/SerialNumber.h` (lines 39-77 and 100-133) and from its
example tables (lines 137-260).

The constructor takes a `T` (src/SerialNumberClass.hpp:53-76). A wider
argument is therefore narrowed by C++ at the call site, not by the
constructor. The model's constructor and `operator=(T)` require a value below
2^w and store it unchanged. A caller holding a wider number applies `Trunc`
itself.

## Model

| member | source | states |
|---|---|---|
| `SerialMath.Half` | src/SerialNumber.h:176-177 | the critical distance 2^(w-1) is positive and exactly half the number space 2^w |
| `SerialMath.SupportedWidth` | src/SerialNumberClass.hpp:53-76 | the widths of the constructor specialisations, `uint8_t` to `uint128_t` (8, 16, 32, 64, 128 bits); each has at least 8 bits and so at least 256 values |
| `SerialMath.Trunc` | src/SerialNumber.h:105-113 | casting a plain number to `T` yields a value of `T`, and leaves a number that already fits unchanged |
| `SerialMath.TruncPeriodic` | src/SerialNumber.h:109-112 | the cast drops every multiple of 2^w: `x + k*2^w` and `x` cast to the same value |
| `SerialMath.Next` | src/SerialNumberClass.hpp:111-115 | unsigned `++n` gives `n + 1`, except that the maximum 2^w - 1 wraps around to 0 |
| `SerialMath.Forward` | src/SerialNumber.h:207-211 | the upward distance from `a` to `b` is below 2^w, is 0 iff `a == b`, is `b - a` or `2^w - (a - b)`, and `a` advanced by it and cast to `T` is `b` |
| `SerialMath.ForwardUnique` | src/SerialNumber.h:207-211 | the upward distance is the only number of increments below 2^w that leads from `a` to `b` |
| `SerialMath.ForwardRoundTrip` | src/SerialNumber.h:207-211 | for distinct values the distances there and back add up to the whole circle 2^w |
| `SerialMath.ForwardNext` | src/SerialNumberClass.hpp:113 | one increment is one step forward, also across the wrap to 0 |
| `SerialOrder.Eq` | src/SerialNumber.h:45-47 | `==` holds iff no step leads from one operand to the other |
| `SerialOrder.Ne` | src/SerialNumber.h:47 | `!=` holds iff at least one step leads from one operand to the other |
| `SerialOrder.Lt` | src/SerialNumber.h:53-59 | `i1 < i2` holds iff `i2` lies strictly ahead of `i1` by fewer than 2^(w-1) steps |
| `SerialOrder.Gt` | src/SerialNumber.h:61-67 | `i1 > i2` holds iff `i1` lies strictly ahead of `i2` by fewer than 2^(w-1) steps |
| `SerialOrder.Le` | src/SerialNumber.h:408-416 | `i1 <= i2` (equal or less) holds iff `i2` lies ahead of `i1` by fewer than 2^(w-1) steps |
| `SerialOrder.Ge` | src/SerialNumber.h:418-426 | `i1 >= i2` (equal or greater) holds iff `i1` lies ahead of `i2` by fewer than 2^(w-1) steps |
| `SerialOrder.Critical` | src/SerialNumber.h:69-74 | the undefined case: the upward distance is exactly 2^(w-1), which holds iff the raw values differ by exactly 2^(w-1) in either order |
| `SerialOrder.ByDistance` | src/SerialNumber.h:53-77 | defines the reference meaning of each operator on the upward distance `d` and the critical distance: `==` is `d == 0`, `<` is `0 < d < 2^(w-1)`, `>` is `d > 2^(w-1)`, `<=` is `d < 2^(w-1)`, `>=` is `d == 0` or `d > 2^(w-1)` |
| `SerialOrder.ComposedOperators` | src/SerialNumber.h:47-48 | in the reference meaning `!=` is the negation of `==`, `<=` is `==` or `<`, `>=` is `==` or `>`, and `==`, `<` and `>` exclude each other |
| `SerialOrder.Holds` | src/SerialNumber.h:366-426 | each of the six operators agrees with its reference meaning `ByDistance` on the upward distance and the critical distance |
| `SerialOrder.Converse` | src/SerialNumber.h:184-192 | maps each operator to the one for swapped operands; only `==` and `!=` map to themselves |
| `SerialOrder.EqualityIsPlain` | src/SerialNumber.h:45-47 | two serial numbers are equal iff their raw values are equal; equality is symmetric; `!=` is exactly the negation of `==` |
| `SerialOrder.LessIsRfcFormula` | src/SerialNumber.h:53-59 | `<` holds iff the values differ and (`i1 < i2` and `i2 - i1 < 2^(w-1)`) or (`i1 > i2` and `i1 - i2 > 2^(w-1)`) |
| `SerialOrder.GreaterIsRfcFormula` | src/SerialNumber.h:61-67 | `>` holds iff the values differ and (`i1 < i2` and `i2 - i1 > 2^(w-1)`) or (`i1 > i2` and `i1 - i2 < 2^(w-1)`) |
| `SerialOrder.OperandsSwap` | src/SerialNumber.h:184-192 | `a < b` is `b > a`, and `a <= b` is `b >= a` |
| `SerialOrder.ConverseHolds` | src/SerialNumber.h:184-192 | every operator applied to `(a, b)` equals its converse applied to `(b, a)` |
| `SerialOrder.Reflexive` | src/SerialNumber.h:137-162 | every value is `==`, `<=` and `>=` itself, and neither `!=`, `<` nor `>` itself |
| `SerialOrder.Asymmetric` | src/SerialNumber.h:53-67 | `a < b` excludes `b < a` and `a > b` |
| `SerialOrder.CriticalIsSymmetric` | src/SerialNumber.h:72-73 | whether a pair is at the critical distance does not depend on the operand order, and equal values never are |
| `SerialOrder.CriticalDistance` | src/SerialNumber.h:69-77 | at the critical distance `<`, `>`, `<=` and `>=` are false in both operand orders, `==` is false and `!=` is true |
| `SerialOrder.Tetrachotomy` | src/SerialNumber.h:259-260 | exactly one of equal, less, greater and critical holds, so a pair that is neither less nor greater is equal or at the critical distance |
| `SerialOrder.IncrementIsGreater` | src/SerialNumber.h:49-51 | for widths of two bits or more a value is less than its increment, and the increment greater than it, also when the increment wrapped to 0 |
| `SerialNumbers.SerialNumber.Valid` | src/SerialNumber.h:351 | the object invariant: the width is a supported one and the private field `n` is a value of the unsigned `T` |
| `SerialNumbers.SerialNumber.constructor` | src/SerialNumberClass.hpp:53-76 | construction of a supported width stores the given value unchanged, so `value()` returns it |
| `SerialNumbers.SerialNumber.Zero` | src/SerialNumber.h:330 | the default argument `T(0)` constructs the value 0 |
| `SerialNumbers.SerialNumber.Copy` | src/SerialNumber.h:333 | the copy constructor gives an object of the same width holding the same value |
| `SerialNumbers.SerialNumber.Value` | src/SerialNumberClass.hpp:85-88 | `value()` reads the stored number, which is always a value of `T`, and changes nothing |
| `SerialNumbers.SerialNumber.Assign` | src/SerialNumberClass.hpp:93-97 | `operator=(T)` makes the receiver hold the given value, keeps the invariant and returns the receiver |
| `SerialNumbers.SerialNumber.AssignFrom` | src/SerialNumberClass.hpp:102-106 | `operator=(const SerialNumber&)` makes the receiver hold the other's value, leaves the other object unchanged and returns the receiver |
| `SerialNumbers.SerialNumber.PreIncrement` | src/SerialNumberClass.hpp:111-115 | prefix `++` advances the value by one modulo 2^w and returns the updated receiver |
| `SerialNumbers.SerialNumber.PostIncrement` | src/SerialNumberClass.hpp:120-125 | postfix `++` advances the value by one modulo 2^w and returns a new object holding the old value |
| `SerialNumbers.CompareSerials` | src/SerialNumber.h:369-370 | `a OP b` for two SerialNumbers of one width is the operator's reference meaning on their stored values |
| `SerialNumbers.CompareSerialPlain` | src/SerialNumber.h:372-373 | `a OP x` is the operator's reference meaning on the stored value and `x` cast to `T` |
| `SerialNumbers.ComparePlainSerial` | src/SerialNumber.h:375-376 | `x OP b` is the operator's reference meaning on `x` cast to `T` and the stored value |
| `SerialNumbers.PlainIsCastToSerial` | src/SerialNumber.h:105-113 | comparing with a plain number gives the same answer as comparing with a SerialNumber that holds the number cast to `T`, in both operand orders |
| `SerialNumbers.PlainOperandWraps` | src/SerialNumber.h:109-112 | adding any multiple of 2^w to a plain operand changes no comparison, in both operand orders |
| `SerialNumbers.PlainOperandSwap` | src/SerialNumber.h:219-227 | `x OP b` equals `b OP' x` for the converse operator `OP'` |
| `SerialNumbers.SerialOperandSwap` | src/SerialNumber.h:248-256 | `a OP b` equals `b OP' a` for the converse operator `OP'` |
| `SerialExamples.Table` | src/SerialNumber.h:148-161 | the ten results of a documented table for two serial numbers of one width: `==`, `!=`, `<`, `<=`, `>`, `>=` for (s1, s2), then `<`, `<=`, `>`, `>=` for (s2, s1), each equal to the operator on the stored values |
| `SerialExamples.TrivialExample` | src/SerialNumber.h:137-164 | the table for 50 and 50 at `uint8_t`, entry by entry |
| `SerialExamples.NonSurprisingExample` | src/SerialNumber.h:166-195 | the table for 10 and 30 at `uint8_t`: 10 < 30, mirrored for (30, 10) |
| `SerialExamples.WraparoundExample` | src/SerialNumber.h:197-228 | the table for 10 and 250 at `uint8_t`: 10 > 250 because of wraparound |
| `SerialExamples.CriticalDistanceExample` | src/SerialNumber.h:232-260 | the table for 10 and 138 at `uint8_t`: every ordering operator false, only `!=` true |
| `SerialExamples.TruncationExample` | src/SerialNumber.h:109-113 | `SerialNumber<uint8_t>{10} == 266` holds, and so does `266 == SerialNumber<uint8_t>{10}` |
| `SerialExamples.IncrementExample` | src/SerialNumberClass.hpp:111-125 | at `uint8_t` 255, postfix `++` returns 255 and leaves 0, which compares greater than 255; a following prefix `++` returns 1 |

## Left out

- Comparisons with negative or floating-point plain numbers. They depend on C++ implicit conversions, including the float-to-unsigned cast. Plain operands are modelled as non-negative integers reduced mod 2^w.
- The `#ifdef UINTx_MAX` gating and the compile-time refusal of other types `T`. The model keeps the width generic in the arithmetic and requires `SupportedWidth(width)` (8, 16, 32, 64 or 128) of every constructed object.
- The compile-time rejection of comparing two SerialNumbers of different widths. It appears only as the precondition `a.width == b.width` of `CompareSerials`.
- Addition, including the bounded addition of section 3.1 of RFC 1982. The library deliberately does not implement it.
- C++ reference returns and chaining. `Assign`, `AssignFrom` and `PreIncrement` return the receiver itself, and nothing more is modelled.
- SerialNumbers.SerialNumber.constructor: stores an argument that is already a value of `T`. The implicit narrowing of a wider argument at the C++ call site is not part of the constructor, so it is not modelled (`Trunc` models it where plain operands are compared).
