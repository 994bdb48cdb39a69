/** NVFP4 decoding: E2M1 nibbles, one E4M3FN scale for each sixteen, one scale for the tensor. */
module Nvfp4 {
  import opened Wrappers
  import opened Arithmetic

  type Nibble = n: int | 0 <= n < 16

  datatype Error = NotMatrices | BadGeometry | NanScale

  datatype Value = Finite(value: real) | NaN

  /** A row-major array of bytes. */
  datatype Tensor = Tensor(shape: seq<nat>, data: seq<Byte>)

  const GROUP: nat := 16

  ghost predicate ValidTensor(t: Tensor) {
    |t.shape| == 2 ==> |t.data| == t.shape[0] * t.shape[1]
  }

  // ---- The element encodings ----

  const E2M1: seq<real> := [
    0.0, 0.5, 1.0, 1.5, 2.0, 3.0, 4.0, 6.0,
    -0.0, -0.5, -1.0, -1.5, -2.0, -3.0, -4.0, -6.0]

  function Element(n: Nibble): real {
    E2M1[n]
  }

  function Power2(e: nat): (r: nat)
    ensures r > 0
  {
    if e == 0 then 1 else 2 * Power2(e - 1)
  }

  lemma {:induction false} Power2Adds(a: nat, b: nat)
    ensures Power2(a + b) == Power2(a) * Power2(b)
  {
    if a > 0 {
      Power2Adds(a - 1, b);
      Assoc(2, Power2(a - 1), Power2(b));
    }
  }

  lemma Assoc(a: nat, b: nat, c: nat)
    ensures a * (b * c) == (a * b) * c
  {
  }

  function Signed(negative: bool, magnitude: nat): int {
    if negative then 0 - magnitude else magnitude
  }

  /**
   * The magnitude of a code with `m` mantissa bits, in units of the smallest subnormal: the
   * mantissa itself when the exponent field is zero, otherwise with its hidden bit and shifted.
   */
  function Magnitude(m: nat, code: nat): nat {
    var unit := Power2(m);
    if code < unit then code else (unit + code % unit) * Power2(code / unit - 1)
  }

  /** Larger codes are larger numbers, so no two codes of one sign share a value. */
  lemma {:induction false} MagnitudeOrdered(m: nat, a: nat, b: nat)
    requires a < b
    ensures Magnitude(m, a) < Magnitude(m, b)
    decreases b
  {
    if a < b - 1 {
      MagnitudeOrdered(m, a, b - 1);
    }
    MagnitudeNext(m, b - 1);
  }

  lemma MagnitudeNext(m: nat, a: nat)
    ensures Magnitude(m, a) < Magnitude(m, a + 1)
  {
    var unit := Power2(m);
    var q, r := a / unit, a % unit;
    NextDigits(a, unit);
    if unit <= a {
      var p := Power2(q - 1);
      if r + 1 < unit {
        ProductBelow(unit + r, unit + r + 1, p);
      } else {
        assert Power2(q) == 2 * p;
        Assoc(2, unit, p);
        Assoc(unit, 2, p);
        ProductBelow(unit + r, 2 * unit, p);
      }
    } else if a + 1 == unit {
      assert (a + 1) / unit == 1 && (a + 1) % unit == 0;
      assert Power2(0) == 1;
    }
  }

  lemma NextDigits(a: nat, unit: nat)
    requires unit > 0
    ensures a % unit + 1 < unit ==> (a + 1) / unit == a / unit && (a + 1) % unit == a % unit + 1
    ensures a % unit + 1 == unit ==> (a + 1) / unit == a / unit + 1 && (a + 1) % unit == 0
    ensures unit <= a ==> a / unit >= 1
    ensures a < unit ==> a % unit == a
  {
    var q, r := a / unit, a % unit;
    assert a == q * unit + r;
    if r + 1 < unit {
      Quotient(a + 1, unit, q, r + 1);
    } else {
      assert (q + 1) * unit == q * unit + unit;
      Quotient(a + 1, unit, q + 1, 0);
    }
    if a < unit {
      Quotient(a, unit, 0, a);
    } else {
      assert q <= 0 ==> q * unit <= 0;
    }
  }

  lemma ProductBelow(a: nat, b: nat, p: nat)
    requires a < b && p > 0
    ensures a * p < b * p
  {
  }

  /** The value of a nibble in halves. */
  function ElementUnits(n: Nibble): int {
    Signed(n >= 8, Magnitude(1, n % 8))
  }

  /** The value of a scale byte in units of `2^-9`, unless it is a NaN. */
  function ScaleUnits(b: Byte): int {
    Signed(b >= 128, Magnitude(3, b % 128))
  }

  function E4m3(b: Byte): Value {
    if b % 128 == 127 then NaN else Finite(ScaleUnits(b) as real / 512.0)
  }

  /** The sixteen listed constants are the sign, two-bit exponent and one-bit mantissa encoding. */
  lemma ElementTable(n: Nibble)
    ensures Element(n) == ElementUnits(n) as real / 2.0
    ensures -12 <= ElementUnits(n) <= 12
  {
    assert Power2(1) == 2 && Power2(2) == 4;
    var code := n % 8;
    assert Magnitude(1, code) == [0, 1, 2, 3, 4, 6, 8, 12][code];
  }

  lemma ScaleRange(b: Byte)
    requires b % 128 != 127
    ensures -229376 <= ScaleUnits(b) <= 229376
  {
    if b % 128 < 126 {
      MagnitudeOrdered(3, b % 128, 126);
    }
    LargestScale();
  }

  lemma LargestScale()
    ensures Magnitude(3, 126) == 229376
  {
    assert Power2(3) == 8;
    assert Power2(7) == 128;
    Power2Adds(7, 7);
  }

  lemma FiniteScale(a: Byte)
    requires a < 127
    ensures E4m3(a) == Finite(Magnitude(3, a) as real / 512.0)
    ensures E4m3(a + 128) == Finite(-(Magnitude(3, a) as real / 512.0))
  {
    assert (a + 128) % 128 == a && a % 128 == a;
    Negated(Magnitude(3, a));
  }

  lemma Negated(n: nat)
    ensures (0 - n) as real / 512.0 == -(n as real / 512.0)
  {
  }

  lemma UnitsOrdered(a: int, b: int)
    requires 0 <= a < b <= 229376
    ensures 0.0 <= a as real / 512.0 < b as real / 512.0 <= 448.0
  {
  }

  /** The positive finite scales are in the order of their bytes, and the sign bit negates. */
  lemma ScalesOrdered(a: Byte, b: Byte)
    requires a < b < 127
    ensures E4m3(a).Finite? && E4m3(b).Finite? && 0.0 <= E4m3(a).value < E4m3(b).value <= 448.0
    ensures E4m3(a + 128) == Finite(-E4m3(a).value)
  {
    FiniteScale(a);
    FiniteScale(b);
    MagnitudeOrdered(3, a, b);
    ScaleRange(b);
    UnitsOrdered(Magnitude(3, a), Magnitude(3, b));
  }

  // ---- The scale table ----

  function Exp2(e: int): real {
    if e >= 0 then Power2(e) as real else 1.0 / Power2(-e) as real
  }

  /** A biased power of two is a shifted unit. */
  lemma BiasedExponent(e: nat)
    requires 1 <= e <= 15
    ensures 64.0 * Exp2(e - 7) == Power2(e - 1) as real
  {
    assert Power2(3) == 8;
    assert Power2(6) == 64;
    if e >= 7 {
      Power2Adds(6, e - 7);
    } else {
      Power2Adds(7 - e, e - 1);
      InverseProduct(Power2(7 - e), Power2(e - 1));
    }
  }

  lemma InverseProduct(a: nat, b: nat)
    requires a > 0 && a * b == 64
    ensures 64.0 * (1.0 / a as real) == b as real
  {
  }

  lemma NormalValue(e: nat, m: nat)
    requires 1 <= e <= 15 && m < 8
    ensures Times(1.0 + m as real / 8.0, Exp2(e - 7)) == ((8 + m) * Power2(e - 1)) as real / 512.0
  {
    BiasedExponent(e);
    Rescale(m, Exp2(e - 7), Power2(e - 1));
  }

  lemma Rescale(m: nat, x: real, p: nat)
    requires 64.0 * x == p as real
    ensures Times(1.0 + m as real / 8.0, x) == ((8 + m) * p) as real / 512.0
  {
  }

  /** The unsigned value of the bit fields, as the table loop computes it. */
  function FieldValue(exponent: nat, mantissa: nat): real {
    if exponent == 0 then mantissa as real / 8.0 * (1.0 / 64.0)
    else Times(1.0 + mantissa as real / 8.0, Exp2(exponent - 7))
  }

  function TableEntry(byte: Byte): Value {
    var sign := if byte / 128 % 2 == 1 then -1.0 else 1.0;
    var exponent := byte / 8 % 16;
    var mantissa := byte % 8;
    if exponent == 15 && mantissa == 7 then NaN
    else Finite(Times(sign, FieldValue(exponent, mantissa)))
  }

  function FieldUnits(exponent: nat, mantissa: nat): nat {
    if exponent == 0 then mantissa else (8 + mantissa) * Power2(exponent - 1)
  }

  lemma FieldValueIs(exponent: nat, mantissa: nat)
    requires exponent <= 15 && mantissa < 8
    ensures FieldValue(exponent, mantissa) == FieldUnits(exponent, mantissa) as real / 512.0
  {
    if exponent != 0 {
      NormalValue(exponent, mantissa);
    }
  }

  lemma TableEntryIs(byte: Byte)
    ensures TableEntry(byte) == E4m3(byte)
  {
    ByteFields(byte);
    FieldValueIs(byte / 8 % 16, byte % 8);
    SignApplies(byte >= 128, Magnitude(3, byte % 128));
  }

  lemma SignApplies(negative: bool, magnitude: nat)
    ensures Signed(negative, magnitude) as real / 512.0
            == Times(if negative then -1.0 else 1.0, magnitude as real / 512.0)
  {
  }

  /** The table agrees with the encoding at every byte. */
  method E4m3fnTable() returns (values: array<Value>)
    ensures values.Length == 256 && forall b: Byte :: values[b] == E4m3(b)
    ensures fresh(values)
  {
    values := new Value[256](_ => Finite(0.0));
    for byte := 0 to 256
      invariant forall b: Byte :: b < byte ==> values[b] == E4m3(b)
    {
      TableEntryIs(byte);
      values[byte] := TableEntry(byte);
    }
  }

  /** The bit fields of a byte, and the magnitude they stand for. */
  lemma ByteFields(b: Byte)
    ensures var e, m, code := b / 8 % 16, b % 8, b % 128;
            && code == 8 * e + m
            && (b / 128 % 2 == 1 <==> b >= 128)
            && Magnitude(3, code) == FieldUnits(e, m)
  {
    assert Power2(3) == 8;
  }

  // ---- Which products a 32-bit float holds exactly ----

  ghost predicate IsFloat(x: real, n: int, e: int) {
    -0x100_0000 < n < 0x100_0000 && -149 <= e <= 104 && x == n as real * Exp2(e)
  }

  /** A 24-bit integer times a power of two in range: every finite 32-bit float is one. */
  ghost predicate Representable(x: real) {
    exists n, e :: IsFloat(x, n, e)
  }

  /** Any rounding mode leaves alone what needs no rounding. */
  ghost predicate FixesFloats(round: real -> real) {
    forall x :: Representable(x) ==> round(x) == x
  }

  /** An element times its scale is a multiple of `2^-10` with a numerator of fewer than 24 bits. */
  lemma ProductExact(n: Nibble, b: Byte)
    requires E4m3(b).Finite?
    ensures var numerator := ElementUnits(n) * ScaleUnits(b);
            && Times(Element(n), E4m3(b).value) == numerator as real / 1024.0
            && -2752512 <= numerator <= 2752512
    ensures Representable(Times(Element(n), E4m3(b).value))
  {
    var u, v := ElementUnits(n), ScaleUnits(b);
    ElementTable(n);
    ScaleRange(b);
    BoundedProduct(u, 12, v, 229376);
    ProductOfUnits(u, v);
    SmallProductIsFloat(u * v);
  }

  function Times(x: real, y: real): real {
    x * y
  }

  /** `Times` is linear in each factor and has unit one. */
  lemma TimesLaw(x: real, y: real, z: real)
    ensures Times(1.0, x) == x && Times(x, y) == Times(y, x) && Times(x + y, z) == Times(x, z) + Times(y, z)
  {
  }

  lemma ProductOfUnits(u: int, v: int)
    ensures Times(u as real / 2.0, v as real / 512.0) == (u * v) as real / 1024.0
  {
  }

  lemma SmallProductIsFloat(n: int)
    requires -2752512 <= n <= 2752512
    ensures Representable(n as real / 1024.0)
  {
    assert Exp2(-10) == 1.0 / 1024.0 by {
      assert Power2(5) == 32;
      Power2Adds(5, 5);
    }
    assert IsFloat(n as real / 1024.0, n, -10);
  }

  lemma BoundedProduct(u: int, p: int, v: int, q: int)
    requires -p <= u <= p && -q <= v <= q
    ensures -(p * q) <= u * v <= p * q
  {
  }

  // ---- Decoding ----

  function NibbleAt(data: seq<Byte>, i: nat): Nibble
    requires i < 2 * |data|
  {
    if i % 2 == 0 then data[i / 2] % 16 else data[i / 2] / 16
  }

  predicate GeometryFits(packed: Tensor, scale: Tensor)
    requires |packed.shape| == 2
  {
    var columns := packed.shape[1] * 2;
    columns % GROUP == 0 && scale.shape == [packed.shape[0], columns / GROUP]
  }

  predicate HasNan(scale: seq<Byte>) {
    exists g :: 0 <= g < |scale| && E4m3(scale[g]).NaN?
  }

  /** The two flat lengths agree with the group size. */
  lemma FlatLengths(packed: Tensor, scale: Tensor)
    requires ValidTensor(packed) && ValidTensor(scale) && |packed.shape| == 2 && GeometryFits(packed, scale)
    ensures 2 * |packed.data| == GROUP * |scale.data|
    ensures 2 * |packed.data| == packed.shape[0] * (2 * packed.shape[1])
  {
  }

  /** The factor of one scale byte; NaNs never reach it. */
  function Factor(b: Byte): real {
    match E4m3(b)
    case Finite(x) => x
    case NaN => 0.0
  }

  /** The product at flat position `i`, before the tensor scale. */
  function Exact(packed: seq<Byte>, scale: seq<Byte>, i: nat): real
    requires i < 2 * |packed| == GROUP * |scale|
  {
    Times(Element(NibbleAt(packed, i)), Factor(scale[i / GROUP]))
  }

  method Unpack(packed: seq<Byte>) returns (values: array<real>)
    ensures fresh(values) && values.Length == 2 * |packed|
    ensures forall i :: 0 <= i < values.Length ==> values[i] == Element(NibbleAt(packed, i))
  {
    values := new real[2 * |packed|](_ => 0.0);
    for t := 0 to |packed|
      invariant forall i :: 0 <= i < 2 * t ==> values[i] == Element(NibbleAt(packed, i))
    {
      values[2 * t] := Element(packed[t] % 16);
      values[2 * t + 1] := Element(packed[t] / 16);
    }
  }

  /** The scales, unless one is a NaN. */
  method LookUp(scale: seq<Byte>) returns (r: Result<seq<real>, Error>)
    ensures r == if HasNan(scale) then Err(NanScale)
                 else Ok(seq(|scale|, g requires 0 <= g < |scale| => Factor(scale[g])))
  {
    var table := E4m3fnTable();
    var factors: seq<real> := [];
    for g := 0 to |scale|
      invariant |factors| == g && forall k :: 0 <= k < g ==> factors[k] == Factor(scale[k])
      invariant forall k :: 0 <= k < g ==> E4m3(scale[k]).Finite?
    {
      if table[scale[g]].NaN? {
        assert E4m3(scale[g]).NaN?;
        return Err(NanScale);
      }
      factors := factors + [table[scale[g]].value];
    }
    assert factors == seq(|scale|, g requires 0 <= g < |scale| => Factor(scale[g]));
    r := Ok(factors);
  }

  /** Every value times its group's factor, in place. */
  method ScaleGroups(values: array<real>, factors: seq<real>, round: real -> real)
    requires values.Length == GROUP * |factors|
    requires forall i :: 0 <= i < values.Length ==>
               round(Times(values[i], factors[i / GROUP])) == Times(values[i], factors[i / GROUP])
    modifies values
    ensures forall i :: 0 <= i < values.Length ==> values[i] == Times(old(values[i]), factors[i / GROUP])
  {
    for i := 0 to values.Length
      invariant forall k :: 0 <= k < i ==> values[k] == Times(old(values[k]), factors[k / GROUP])
      invariant forall k :: i <= k < values.Length ==> values[k] == old(values[k])
    {
      values[i] := round(Times(values[i], factors[i / GROUP]));
    }
  }

  /** Every value times one factor, in place. */
  method ScaleAll(values: array<real>, factor: real, round: real -> real)
    modifies values
    ensures forall i :: 0 <= i < values.Length ==> values[i] == round(Times(old(values[i]), factor))
  {
    for i := 0 to values.Length
      invariant forall k :: 0 <= k < i ==> values[k] == round(Times(old(values[k]), factor))
      invariant forall k :: i <= k < values.Length ==> values[k] == old(values[k])
    {
      values[i] := round(Times(values[i], factor));
    }
  }

  /** No product of an element and its scale is rounded. */
  lemma GroupsExact(packed: seq<Byte>, scale: seq<Byte>, round: real -> real, i: nat)
    requires i < 2 * |packed| == GROUP * |scale| && FixesFloats(round) && !HasNan(scale)
    ensures round(Exact(packed, scale, i)) == Exact(packed, scale, i)
  {
    assert E4m3(scale[i / GROUP]).Finite?;
    ProductExact(NibbleAt(packed, i), scale[i / GROUP]);
  }

  /**
   * Refused exactly for arrays that are not matrices, a scale matrix of the wrong shape, or a NaN
   * scale. Otherwise every output is the exact product of its nibble, its group's scale and the
   * tensor scale, rounded once, under any rounding mode.
   */
  method Dequantize(packed: Tensor, scale: Tensor, tensorScale: real, round: real -> real)
      returns (r: Result<array<real>, Error>)
    requires ValidTensor(packed) && ValidTensor(scale) && FixesFloats(round)
    ensures r.Ok? <==> |packed.shape| == 2 && GeometryFits(packed, scale) && !HasNan(scale.data)
    ensures r == Err(NotMatrices) <==> |packed.shape| != 2 || |scale.shape| != 2
    ensures r == Err(NanScale) <==> |packed.shape| == 2 && GeometryFits(packed, scale) && HasNan(scale.data)
    ensures r.Ok? ==>
              && 2 * |packed.data| == GROUP * |scale.data| == r.value.Length
              && forall i :: 0 <= i < r.value.Length ==>
                   r.value[i] == round(Times(Exact(packed.data, scale.data, i), tensorScale))
  {
    if |packed.shape| != 2 || |scale.shape| != 2 {
      return Err(NotMatrices);
    }
    if !GeometryFits(packed, scale) {
      return Err(BadGeometry);
    }
    FlatLengths(packed, scale);
    var values := Unpack(packed.data);
    var scales := LookUp(scale.data);
    if scales.Err? {
      return Err(scales.error);
    }
    forall i | 0 <= i < values.Length
      ensures Times(values[i], scales.value[i / GROUP]) == Exact(packed.data, scale.data, i)
      ensures round(Exact(packed.data, scale.data, i)) == Exact(packed.data, scale.data, i)
    {
      GroupsExact(packed.data, scale.data, round, i);
    }
    ScaleGroups(values, scales.value, round);
    assert forall i :: 0 <= i < values.Length ==> values[i] == Exact(packed.data, scale.data, i);
    ScaleAll(values, tensorScale, round);
    r := Ok(values);
  }

  /**
   * The flat position of row `row` and column `column` reads the byte at column `column / 2` of the
   * same row, its low nibble for even columns, and the scale of group `column / 16` of that row.
   */
  lemma EntryOf(packed: Tensor, scale: Tensor, row: nat, column: nat)
    requires ValidTensor(packed) && ValidTensor(scale) && |packed.shape| == 2 && GeometryFits(packed, scale)
    requires row < packed.shape[0] && column < 2 * packed.shape[1]
    ensures var half := packed.shape[1];
            var i, t := row * (2 * half) + column, row * half + column / 2;
            var g := row * (2 * half / 16) + column / 16;
            && i < 2 * |packed.data| == 16 * |scale.data| && t < |packed.data| && g < |scale.data|
            && NibbleAt(packed.data, i) == (if column % 2 == 0 then packed.data[t] % 16 else packed.data[t] / 16)
            && Exact(packed.data, scale.data, i) == Times(Element(NibbleAt(packed.data, i)), Factor(scale.data[g]))
  {
    var rows, half := packed.shape[0], packed.shape[1];
    var groups := 2 * half / GROUP;
    FlatLengths(packed, scale);
    FlatIndex(rows, half, 2, row, column);
    FlatIndex(rows, groups, GROUP, row, column);
    assert GROUP * groups == 2 * half;
  }

  /** A row-major index split into units of `width` columns. */
  lemma FlatIndex(rows: nat, units: nat, width: nat, row: nat, column: nat)
    requires width > 0 && row < rows && column < width * units
    ensures var i := row * (width * units) + column;
            && i / width == row * units + column / width && i % width == column % width
            && row * units + column / width < rows * units
            && i < width * (rows * units)
  {
    var q, r := column / width, column % width;
    assert column == q * width + r;
    DivBound(column, units, width);
    RowMajor(row, units, width, q);
    Quotient(row * (width * units) + column, width, row * units + q, r);
    MulLe(row + 1, rows, units);
    assert (row + 1) * units == row * units + units;
    MulLe(row * units + q + 1, rows * units, width);
    assert (row * units + q + 1) * width == (row * units + q) * width + width;
  }

  lemma RowMajor(row: nat, units: nat, width: nat, q: nat)
    ensures row * (width * units) + q * width == (row * units + q) * width
  {
  }
}
