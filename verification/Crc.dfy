/** The CRC-8 that guards every ASCII frame: generator x^8 + x^2 + x + 1, initial value 0.

    The register arithmetic, as the host and the firmware write it, is related to polynomial
    division over GF(2), and the error-detection guarantees of the code are derived from it. */
module Crc {

  // ----- the register, as both implementations compute it -----

  function Shift(crc: bv8): bv8 {
    if crc & 0x80 != 0 then (crc << 1) ^ 0x07 else crc << 1
  }

  function ShiftN(crc: bv8, n: nat): bv8
    decreases n
  {
    if n == 0 then crc else Shift(ShiftN(crc, n - 1))
  }

  function AddByte(crc: bv8, b: bv8): bv8 {
    ShiftN(crc ^ b, 8)
  }

  function Crc8(data: seq<bv8>): bv8 {
    if |data| == 0 then 0 else AddByte(Crc8(data[..|data| - 1]), data[|data| - 1])
  }

  /** One shift of the host's loop. A Python int never overflows, so the register is 16 bits wide
      here and the explicit masks are what keep it to a byte. */
  function HostShift(crc: bv16): bv16 {
    if crc & 0x80 != 0 then ((crc << 1) ^ 0x07) & 0xFF else (crc << 1) & 0xFF
  }

  function Widen(b: bv8): bv16 { b as bv16 }

  lemma HostShiftIsShift(crc: bv8)
    ensures HostShift(Widen(crc)) == Widen(Shift(crc))
  {
  }

  lemma HostXorIsXor(a: bv8, b: bv8)
    ensures Widen(a) ^ Widen(b) == Widen(a ^ b)
  {
  }

  method HostCrc8(data: seq<bv8>) returns (crc: bv16)
    ensures crc == Widen(Crc8(data))
  {
    crc := 0;
    for i := 0 to |data|
      invariant crc == Widen(Crc8(data[..i]))
    {
      ghost var before := Crc8(data[..i]);
      HostXorIsXor(before, data[i]);
      crc := crc ^ Widen(data[i]);
      ghost var entry := before ^ data[i];
      for k := 0 to 8
        invariant crc == Widen(ShiftN(entry, k))
      {
        HostShiftIsShift(ShiftN(entry, k));
        crc := HostShift(crc);
      }
      assert data[..i + 1][..i] == data[..i];
    }
    assert data[..|data|] == data;
  }

  /** The firmware's loop over the first `len` bytes, on an 8-bit register. */
  method FirmwareCrc8(data: seq<bv8>, len: nat) returns (crc: bv8)
    requires len <= |data|
    ensures crc == Crc8(data[..len])
  {
    crc := 0;
    for i := 0 to len
      invariant crc == Crc8(data[..i])
    {
      ghost var before := Crc8(data[..i]);
      crc := crc ^ data[i];
      ghost var entry := before ^ data[i];
      for b := 0 to 8
        invariant crc == ShiftN(entry, b)
      {
        crc := Shift(crc);
      }
      assert data[..i + 1][..i] == data[..i];
    }
  }

  // ----- the register as eight coefficients -----

  /** `ci` is the coefficient of x^i. */
  datatype Reg = Reg(c0: bool, c1: bool, c2: bool, c3: bool, c4: bool, c5: bool, c6: bool, c7: bool)

  const ZERO: Reg := Reg(false, false, false, false, false, false, false, false)

  function Bit(b: bv8, mask: bv8): bool { b & mask != 0 }

  function ToReg(b: bv8): Reg {
    Reg(Bit(b, 0x01), Bit(b, 0x02), Bit(b, 0x04), Bit(b, 0x08),
        Bit(b, 0x10), Bit(b, 0x20), Bit(b, 0x40), Bit(b, 0x80))
  }

  function Xor(r: Reg, s: Reg): Reg {
    Reg(r.c0 != s.c0, r.c1 != s.c1, r.c2 != s.c2, r.c3 != s.c3,
        r.c4 != s.c4, r.c5 != s.c5, r.c6 != s.c6, r.c7 != s.c7)
  }

  function Up(r: Reg): Reg { Reg(false, r.c0, r.c1, r.c2, r.c3, r.c4, r.c5, r.c6) }

  /** One message bit: the coefficient pushed out at the top selects whether the generator is added. */
  function Feed(r: Reg, bit: bool): Reg {
    var top := r.c7 != bit;
    Reg(top, r.c0 != top, r.c1 != top, r.c2, r.c3, r.c4, r.c5, r.c6)
  }

  lemma ShiftIsFeed(crc: bv8)
    ensures ToReg(Shift(crc)) == Feed(ToReg(crc), false)
  {
  }

  lemma XorBit0(a: bv8, b: bv8)
    ensures ToReg(a ^ b).c0 == (ToReg(a).c0 != ToReg(b).c0)
  {
  }

  lemma XorBit1(a: bv8, b: bv8)
    ensures ToReg(a ^ b).c1 == (ToReg(a).c1 != ToReg(b).c1)
  {
  }

  lemma XorBit2(a: bv8, b: bv8)
    ensures ToReg(a ^ b).c2 == (ToReg(a).c2 != ToReg(b).c2)
  {
  }

  lemma XorBit3(a: bv8, b: bv8)
    ensures ToReg(a ^ b).c3 == (ToReg(a).c3 != ToReg(b).c3)
  {
  }

  lemma XorBit4(a: bv8, b: bv8)
    ensures ToReg(a ^ b).c4 == (ToReg(a).c4 != ToReg(b).c4)
  {
  }

  lemma XorBit5(a: bv8, b: bv8)
    ensures ToReg(a ^ b).c5 == (ToReg(a).c5 != ToReg(b).c5)
  {
  }

  lemma XorBit6(a: bv8, b: bv8)
    ensures ToReg(a ^ b).c6 == (ToReg(a).c6 != ToReg(b).c6)
  {
  }

  lemma XorBit7(a: bv8, b: bv8)
    ensures ToReg(a ^ b).c7 == (ToReg(a).c7 != ToReg(b).c7)
  {
  }

  lemma XorIsXor(a: bv8, b: bv8)
    ensures ToReg(a ^ b) == Xor(ToReg(a), ToReg(b))
  {
    XorBit0(a, b);
    XorBit1(a, b);
    XorBit2(a, b);
    XorBit3(a, b);
    XorBit4(a, b);
    XorBit5(a, b);
    XorBit6(a, b);
    XorBit7(a, b);
    SameCoefficients(ToReg(a ^ b), Xor(ToReg(a), ToReg(b)));
  }

  lemma SameCoefficients(r: Reg, s: Reg)
    requires r.c0 == s.c0 && r.c1 == s.c1 && r.c2 == s.c2 && r.c3 == s.c3
    requires r.c4 == s.c4 && r.c5 == s.c5 && r.c6 == s.c6 && r.c7 == s.c7
    ensures r == s
  {
  }

  lemma ToRegInjective(a: bv8, b: bv8)
    requires ToReg(a) == ToReg(b)
    ensures a == b
  {
  }

  function FeedN(r: Reg, n: nat): Reg
    decreases n
  {
    if n == 0 then r else Feed(FeedN(r, n - 1), false)
  }

  lemma {:induction false} ShiftNIsFeedN(crc: bv8, n: nat)
    ensures ToReg(ShiftN(crc, n)) == FeedN(ToReg(crc), n)
    decreases n
  {
    if n == 0 {
    } else {
      ShiftNIsFeedN(crc, n - 1);
      ShiftIsFeed(ShiftN(crc, n - 1));
    }
  }

  // ----- the same register, one message bit at a time -----

  function UpN(r: Reg, n: nat): Reg
    decreases n
  {
    if n == 0 then r else Up(UpN(r, n - 1))
  }

  /** The top `n` coefficients, highest first: the order in which a byte's bits enter. */
  function TopBits(r: Reg, n: nat): (bits: seq<bool>)
    ensures |bits| == n
    decreases n
  {
    if n == 0 then [] else TopBits(r, n - 1) + [UpN(r, n - 1).c7]
  }

  function ByteBits(b: bv8): (bits: seq<bool>)
    ensures |bits| == 8
  {
    TopBits(ToReg(b), 8)
  }

  function DataBits(data: seq<bv8>): (r: seq<bool>)
    ensures |r| == 8 * |data|
  {
    if |data| == 0 then [] else DataBits(data[..|data| - 1]) + ByteBits(data[|data| - 1])
  }

  function Serial(r: Reg, bits: seq<bool>): Reg
    decreases |bits|
  {
    if |bits| == 0 then r else Serial(Feed(r, bits[0]), bits[1..])
  }

  lemma {:induction false} SerialSplit(r: Reg, a: seq<bool>, b: seq<bool>)
    ensures Serial(r, a + b) == Serial(Serial(r, a), b)
    decreases |a|
  {
    if |a| == 0 {
      assert a + b == b;
    } else {
      assert (a + b)[1..] == a[1..] + b;
      SerialSplit(Feed(r, a[0]), a[1..], b);
    }
  }

  lemma FeedXor(r: Reg, b: Reg)
    ensures Feed(Xor(r, b), false) == Xor(Feed(r, b.c7), Up(b))
  {
  }

  lemma {:induction false} FeedingAByte(r: Reg, b: Reg, n: nat)
    ensures FeedN(Xor(r, b), n) == Xor(Serial(r, TopBits(b, n)), UpN(b, n))
    decreases n
  {
    if n == 0 {
    } else {
      FeedingAByte(r, b, n - 1);
      FeedXor(Serial(r, TopBits(b, n - 1)), UpN(b, n - 1));
      SerialSplit(r, TopBits(b, n - 1), [UpN(b, n - 1).c7]);
    }
  }

  lemma UpEightTimes(r: Reg, b: Reg)
    ensures Xor(r, UpN(b, 8)) == r
  {
    assert UpN(b, 4) == Up(Up(UpN(b, 2))) == Up(Up(Up(Up(b))));
    assert UpN(b, 8) == Up(Up(UpN(b, 6))) == Up(Up(Up(Up(UpN(b, 4)))));
    assert UpN(b, 8) == ZERO;
  }

  lemma AddByteIsEightBits(crc: bv8, b: bv8)
    ensures ToReg(AddByte(crc, b)) == Serial(ToReg(crc), ByteBits(b))
  {
    XorIsXor(crc, b);
    ShiftNIsFeedN(crc ^ b, 8);
    FeedingAByte(ToReg(crc), ToReg(b), 8);
    UpEightTimes(Serial(ToReg(crc), TopBits(ToReg(b), 8)), ToReg(b));
  }

  lemma {:induction false} BytewiseIsBitwise(data: seq<bv8>)
    ensures ToReg(Crc8(data)) == Serial(ZERO, DataBits(data))
  {
    if |data| == 0 {
    } else {
      var n := |data| - 1;
      BytewiseIsBitwise(data[..n]);
      SerialSplit(ZERO, DataBits(data[..n]), ByteBits(data[n]));
      AddByteIsEightBits(Crc8(data[..n]), data[n]);
    }
  }

  // ----- polynomials over GF(2): element i is the coefficient of x^i -----

  type Poly = seq<bool>

  function Zeros(n: nat): (r: Poly)
    ensures |r| == n
  {
    seq(n, i => false)
  }

  function Add(p: Poly, q: Poly): (r: Poly)
    requires |p| == |q|
    ensures |r| == |p|
  {
    seq(|p|, i requires 0 <= i < |p| => p[i] != q[i])
  }

  function Times(p: Poly, q: Poly): (r: Poly)
    requires |q| > 0
    ensures |r| == |p| + |q| - 1
  {
    if |p| == 0 then Zeros(|q| - 1)
    else Add([false] + Times(p[1..], q), (if p[0] then q else Zeros(|q|)) + Zeros(|p| - 1))
  }

  /** x^8 + x^2 + x + 1 */
  const GENERATOR: Poly := [true, true, true, false, false, false, false, false, true]

  function Reversed(bits: seq<bool>): (r: seq<bool>)
    ensures |r| == |bits|
  {
    if |bits| == 0 then [] else Reversed(bits[1..]) + [bits[0]]
  }

  /** The polynomial of a message: the first bit sent has the highest degree. */
  function MessagePoly(bits: seq<bool>): Poly { Reversed(bits) }

  function Coefficient(r: Reg, i: nat): bool
    requires i < 8
  {
    if i == 0 then r.c0 else if i == 1 then r.c1 else if i == 2 then r.c2 else if i == 3 then r.c3
    else if i == 4 then r.c4 else if i == 5 then r.c5 else if i == 6 then r.c6 else r.c7
  }

  function RegPoly(r: Reg): (p: Poly)
    ensures |p| == 8
  {
    seq(8, i requires 0 <= i < 8 => Coefficient(r, i))
  }

  /** data(x) * x^8 == quotient(x) * generator(x) + remainder(x), the remainder of degree below 8. */
  ghost predicate Divides(bits: seq<bool>, quotient: Poly, remainder: Reg) {
    && |quotient| == |bits|
    && Zeros(8) + MessagePoly(bits)
       == Add(Times(quotient, GENERATOR), RegPoly(remainder) + Zeros(|bits|))
  }

  lemma ReversedSnoc(bits: seq<bool>, bit: bool)
    ensures Reversed(bits + [bit]) == [bit] + Reversed(bits)
  {
    if |bits| > 0 {
      assert (bits + [bit])[1..] == bits[1..] + [bit];
    }
  }

  lemma TimesStep(top: bool, quotient: Poly)
    ensures forall i :: 0 <= i < |quotient| + 9 ==>
              Times([top] + quotient, GENERATOR)[i]
              == ((if i == 0 then false else Times(quotient, GENERATOR)[i - 1])
                  != (i < 9 && top && GENERATOR[i]))
  {
    var q := [top] + quotient;
    assert q[1..] == quotient;
  }

  /** Sending one more bit multiplies by x and adds it: the quotient gains one coefficient. */
  lemma DividesStep(bits: seq<bool>, quotient: Poly, r: Reg, bit: bool)
    requires Divides(bits, quotient, r)
    ensures Divides(bits + [bit], [r.c7 != bit] + quotient, Feed(r, bit))
  {
    var q := [r.c7 != bit] + quotient;
    var n := |bits|;
    var before, after := Zeros(8) + MessagePoly(bits), Zeros(8) + MessagePoly(bits + [bit]);
    var tail, tail' := RegPoly(r) + Zeros(n), RegPoly(Feed(r, bit)) + Zeros(n + 1);
    ReversedSnoc(bits, bit);
    TimesStep(r.c7 != bit, quotient);
    forall i | 0 <= i < n + 9
      ensures after[i] == (Times(q, GENERATOR)[i] != tail'[i])
    {
      if i > 0 {
        assert before[i - 1] == (Times(quotient, GENERATOR)[i - 1] != tail[i - 1]);
        StepCoefficient(r, bit, bits, i);
      }
    }
    assert after == Add(Times(q, GENERATOR), tail');
  }

  lemma RegCoefficient(r: Reg, bit: bool, i: nat)
    requires 0 < i < 8
    ensures RegPoly(Feed(r, bit))[i] == (RegPoly(r)[i - 1] != ((r.c7 != bit) && GENERATOR[i]))
  {
    GeneratorAt(i);
    PolyAt(r, i - 1);
    PolyAt(Feed(r, bit), i);
  }

  lemma PolyAt(r: Reg, i: nat)
    requires i < 8
    ensures RegPoly(r)[i] == Coefficient(r, i)
  {
  }

  lemma GeneratorAt(i: nat)
    requires i <= 8
    ensures GENERATOR[i] == (i <= 2 || i == 8)
  {
  }

  /** Coefficient by coefficient, what feeding a bit does to message, register and quotient. */
  lemma StepCoefficient(r: Reg, bit: bool, bits: seq<bool>, i: nat)
    requires 0 < i < |bits| + 9
    ensures var n, top := |bits|, r.c7 != bit;
            (Zeros(8) + ([bit] + MessagePoly(bits)))[i]
            == (((Zeros(8) + MessagePoly(bits))[i - 1] != (RegPoly(r) + Zeros(n))[i - 1])
                != ((i < 9 && top && GENERATOR[i]) != (RegPoly(Feed(r, bit)) + Zeros(n + 1))[i]))
  {
    if i < 8 {
      RegCoefficient(r, bit, i);
    }
  }

  lemma {:induction false} SerialDivides(bits: seq<bool>) returns (quotient: Poly)
    ensures Divides(bits, quotient, Serial(ZERO, bits))
  {
    if |bits| == 0 {
      quotient := [];
      assert Zeros(8) + MessagePoly(bits) == Add(Times([], GENERATOR), RegPoly(ZERO) + Zeros(0));
    } else {
      var n := |bits| - 1;
      var q := SerialDivides(bits[..n]);
      var r := Serial(ZERO, bits[..n]);
      assert bits == bits[..n] + [bits[n]];
      SerialSplit(ZERO, bits[..n], [bits[n]]);
      DividesStep(bits[..n], q, r, bits[n]);
      quotient := [r.c7 != bits[n]] + q;
    }
  }

  /** Two products by the generator that agree from degree 8 up come from the same factor. */
  lemma {:induction false} QuotientUnique(p: Poly, q: Poly)
    requires |p| == |q|
    requires forall i :: 8 <= i < |p| + 8 ==> Times(p, GENERATOR)[i] == Times(q, GENERATOR)[i]
    ensures p == q
  {
    if |p| == 0 {
    } else {
      var tp, tq := Times(p, GENERATOR), Times(q, GENERATOR);
      var rp, rq := Times(p[1..], GENERATOR), Times(q[1..], GENERATOR);
      assert p == [p[0]] + p[1..] && q == [q[0]] + q[1..];
      TimesStep(p[0], p[1..]);
      TimesStep(q[0], q[1..]);
      forall i | 8 <= i < |p| - 1 + 8
        ensures rp[i] == rq[i]
      {
        assert tp[i + 1] == tq[i + 1];
      }
      QuotientUnique(p[1..], q[1..]);
      assert tp[8] == tq[8];
    }
  }

  lemma CoefficientsDetermine(r: Reg, s: Reg)
    requires forall i :: 0 <= i < 8 ==> Coefficient(r, i) == Coefficient(s, i)
    ensures r == s
  {
    assert Coefficient(r, 0) == Coefficient(s, 0) && Coefficient(r, 1) == Coefficient(s, 1);
    assert Coefficient(r, 2) == Coefficient(s, 2) && Coefficient(r, 3) == Coefficient(s, 3);
    assert Coefficient(r, 4) == Coefficient(s, 4) && Coefficient(r, 5) == Coefficient(s, 5);
    assert Coefficient(r, 6) == Coefficient(s, 6) && Coefficient(r, 7) == Coefficient(s, 7);
  }

  lemma RemainderUnique(bits: seq<bool>, p: Poly, a: Reg, q: Poly, b: Reg)
    requires Divides(bits, p, a) && Divides(bits, q, b)
    ensures a == b
  {
    var n := |bits|;
    var tp, tq := Times(p, GENERATOR), Times(q, GENERATOR);
    var ra, rb := RegPoly(a) + Zeros(n), RegPoly(b) + Zeros(n);
    var lhs := Zeros(8) + MessagePoly(bits);
    forall i | 0 <= i < n + 8
      ensures (tp[i] != ra[i]) == (tq[i] != rb[i])
    {
      assert Add(tp, ra)[i] == lhs[i] && Add(tq, rb)[i] == lhs[i];
    }
    QuotientUnique(p, q);
    forall i | 0 <= i < 8
      ensures Coefficient(a, i) == Coefficient(b, i)
    {
      assert RegPoly(a)[i] == ra[i] == rb[i] == RegPoly(b)[i];
    }
    CoefficientsDetermine(a, b);
  }

  /** The CRC is the remainder of data(x) * x^8 by the generator, and nothing else is. */
  lemma CrcIsTheRemainder(data: seq<bv8>, crc: bv8)
    ensures crc == Crc8(data) <==> exists quotient :: Divides(DataBits(data), quotient, ToReg(crc))
  {
    var bits := DataBits(data);
    BytewiseIsBitwise(data);
    var q := SerialDivides(bits);
    if p :| Divides(bits, p, ToReg(crc)) {
      RemainderUnique(bits, p, ToReg(crc), q, ToReg(Crc8(data)));
      ToRegInjective(crc, Crc8(data));
    }
  }

  // ----- error detection -----

  /** In how many positions two equally long bit strings differ. */
  function Distance(a: seq<bool>, b: seq<bool>): nat
    requires |a| == |b|
  {
    if |a| == 0 then 0 else (if a[0] != b[0] then 1 else 0) + Distance(a[1..], b[1..])
  }

  function Parity(r: Reg): bool {
    (((r.c0 != r.c1) != (r.c2 != r.c3)) != ((r.c4 != r.c5) != (r.c6 != r.c7)))
  }

  /** The generator has an even number of terms, so feeding a bit carries exactly its parity. */
  lemma FeedParity(r: Reg, bit: bool)
    ensures Parity(Feed(r, bit)) == (Parity(r) != bit)
  {
  }

  lemma {:induction false} SerialParity(r: Reg, s: Reg, a: seq<bool>, b: seq<bool>)
    requires |a| == |b|
    ensures (Parity(Serial(r, a)) != Parity(Serial(s, b)))
        <==> ((Parity(r) != Parity(s)) != (Distance(a, b) % 2 == 1))
    decreases |a|
  {
    if |a| == 0 {
    } else {
      FeedParity(r, a[0]);
      FeedParity(s, b[0]);
      SerialParity(Feed(r, a[0]), Feed(s, b[0]), a[1..], b[1..]);
    }
  }

  /** Any corruption of an odd number of bits changes the CRC, whatever the length. */
  lemma OddErrorsDetected(a: seq<bv8>, b: seq<bv8>)
    requires |a| == |b| && Distance(DataBits(a), DataBits(b)) % 2 == 1
    ensures Crc8(a) != Crc8(b)
  {
    BytewiseIsBitwise(a);
    BytewiseIsBitwise(b);
    SerialParity(ZERO, ZERO, DataBits(a), DataBits(b));
  }

  /** The registers agree in their `n` lowest coefficients. */
  predicate AgreeLow(r: Reg, s: Reg, n: nat) {
    && (n > 0 ==> r.c0 == s.c0) && (n > 1 ==> r.c1 == s.c1) && (n > 2 ==> r.c2 == s.c2)
    && (n > 3 ==> r.c3 == s.c3) && (n > 4 ==> r.c4 == s.c4) && (n > 5 ==> r.c5 == s.c5)
    && (n > 6 ==> r.c6 == s.c6) && (n > 7 ==> r.c7 == s.c7)
  }

  /** If at most eight bits bring two registers together, the registers already agreed in their
      low coefficients; and from one register, different bits lead to different registers. */
  lemma FeedBackwards(r: Reg, s: Reg, x: bool, y: bool, n: nat)
    requires n < 8 && AgreeLow(Feed(r, x), Feed(s, y), n + 1)
    ensures AgreeLow(r, s, n)
    ensures r == s ==> x == y
  {
  }

  lemma BackOne(r: Reg, s: Reg, x: bool, y: bool, u: seq<bool>, v: seq<bool>, n: nat)
    requires n < 8 && AgreeLow(Feed(r, x), Feed(s, y), n + 1)
    requires Feed(r, x) == Feed(s, y) ==> u == v
    ensures AgreeLow(r, s, n)
    ensures r == s ==> x == y && u == v
  {
    FeedBackwards(r, s, x, y, n);
  }

  lemma NothingFed(r: Reg, s: Reg, u: seq<bool>, v: seq<bool>)
    requires |u| == |v| == 0 && Serial(r, u) == Serial(s, v)
    ensures AgreeLow(r, s, 8)
  {
  }

  lemma SameFromRest(u: seq<bool>, v: seq<bool>)
    requires |u| == |v| > 0
    ensures u[0] == v[0] && u[1..] == v[1..] ==> u == v
  {
    assert u == [u[0]] + u[1..] && v == [v[0]] + v[1..];
  }

  lemma {:induction false} SerialBackwards(r: Reg, s: Reg, u: seq<bool>, v: seq<bool>, n: nat)
    requires |u| == |v| && |u| + n == 8 && Serial(r, u) == Serial(s, v)
    ensures AgreeLow(r, s, n)
    ensures r == s ==> u == v
    decreases |u|
  {
    if |u| == 0 {
      NothingFed(r, s, u, v);
    } else {
      SerialBackwards(Feed(r, u[0]), Feed(s, v[0]), u[1..], v[1..], n + 1);
      BackOne(r, s, u[0], v[0], u[1..], v[1..], n);
      SameFromRest(u, v);
    }
  }

  lemma FeedInjective(r: Reg, s: Reg, bit: bool)
    requires Feed(r, bit) == Feed(s, bit)
    ensures r == s
  {
  }

  lemma {:induction false} SerialInjective(r: Reg, s: Reg, bits: seq<bool>)
    requires Serial(r, bits) == Serial(s, bits)
    ensures r == s
    decreases |bits|
  {
    if |bits| == 0 {
    } else {
      SerialInjective(Feed(r, bits[0]), Feed(s, bits[0]), bits[1..]);
      FeedInjective(r, s, bits[0]);
    }
  }

  /** The two strings agree except inside the `width` positions from `start`. */
  ghost predicate DifferOnlyWithin(a: seq<bool>, b: seq<bool>, start: nat, width: nat) {
    && |a| == |b|
    && forall i :: 0 <= i < |a| && !(start <= i < start + width) ==> a[i] == b[i]
  }

  lemma SerialAround(r: Reg, before: seq<bool>, u: seq<bool>, v: seq<bool>, after: seq<bool>)
    ensures Serial(r, before + (u + after)) == Serial(r, before + (v + after))
        <==> Serial(Serial(r, before), u) == Serial(Serial(r, before), v)
  {
    var r' := Serial(r, before);
    SerialSplit(r, before, u + after);
    SerialSplit(r, before, v + after);
    SerialSplit(r', u, after);
    SerialSplit(r', v, after);
    if Serial(Serial(r', u), after) == Serial(Serial(r', v), after) {
      SerialInjective(Serial(r', u), Serial(r', v), after);
    }
  }

  lemma SerialBurst(r: Reg, a: seq<bool>, b: seq<bool>, start: nat)
    requires DifferOnlyWithin(a, b, start, 8) && a != b
    ensures Serial(r, a) != Serial(r, b)
  {
    if start < |a| {
      var stop := if start + 8 <= |a| then start + 8 else |a|;
      var u, v := a[start..stop], b[start..stop];
      Window(a, a, start, stop);
      Window(a, b, start, stop);
      SerialAround(r, a[..start], u, v, a[stop..]);
      var r' := Serial(r, a[..start]);
      if Serial(r', u) == Serial(r', v) {
        SerialBackwards(r', r', u, v, 8 - |u|);
      }
    }
  }

  lemma Window(a: seq<bool>, b: seq<bool>, start: nat, stop: nat)
    requires |a| == |b| && start <= stop <= |a|
    requires forall i :: 0 <= i < |a| && !(start <= i < stop) ==> a[i] == b[i]
    ensures b == a[..start] + (b[start..stop] + a[stop..])
  {
  }

  lemma TopBitsAt(r: Reg, k: nat, n: nat)
    requires k < n
    ensures TopBits(r, n)[k] == UpN(r, k).c7
    decreases n
  {
    if k < n - 1 {
      TopBitsAt(r, k, n - 1);
    }
  }

  lemma TopBitsInjective(r: Reg, s: Reg)
    requires TopBits(r, 8) == TopBits(s, 8)
    ensures r == s
  {
    ByteFromBits(r);
    ByteFromBits(s);
  }

  lemma ByteFromBits(r: Reg)
    ensures var t := TopBits(r, 8); r == Reg(t[7], t[6], t[5], t[4], t[3], t[2], t[1], t[0])
  {
    forall k | 0 <= k < 8
      ensures TopBits(r, 8)[k] == UpN(r, k).c7
    {
      TopBitsAt(r, k, 8);
    }
    assert UpN(r, 2) == Up(Up(r));
    assert UpN(r, 4) == Up(Up(UpN(r, 2)));
    assert UpN(r, 6) == Up(Up(UpN(r, 4)));
    assert UpN(r, 1) == Up(UpN(r, 0)) && UpN(r, 3) == Up(UpN(r, 2)) && UpN(r, 5) == Up(UpN(r, 4));
    assert UpN(r, 7) == Up(UpN(r, 6));
  }

  lemma SplitEqual(a: seq<bool>, x: seq<bool>, b: seq<bool>, y: seq<bool>)
    requires a + x == b + y && |a| == |b|
    ensures a == b && x == y
  {
    assert a == (a + x)[..|a|] && b == (b + y)[..|b|];
    assert x == (a + x)[|a|..] && y == (b + y)[|b|..];
  }

  lemma ByteBitsInjective(a: bv8, b: bv8)
    requires ByteBits(a) == ByteBits(b)
    ensures a == b
  {
    TopBitsInjective(ToReg(a), ToReg(b));
    ToRegInjective(a, b);
  }

  lemma {:induction false} DataBitsInjective(a: seq<bv8>, b: seq<bv8>)
    requires |a| == |b| && DataBits(a) == DataBits(b)
    ensures a == b
  {
    if |a| == 0 {
    } else {
      var n := |a| - 1;
      SplitEqual(DataBits(a[..n]), ByteBits(a[n]), DataBits(b[..n]), ByteBits(b[n]));
      DataBitsInjective(a[..n], b[..n]);
      ByteBitsInjective(a[n], b[n]);
      SameEnds(a, b);
    }
  }

  lemma SameEnds(a: seq<bv8>, b: seq<bv8>)
    requires |a| == |b| > 0 && a[..|a| - 1] == b[..|b| - 1] && a[|a| - 1] == b[|b| - 1]
    ensures a == b
  {
    assert a == a[..|a| - 1] + [a[|a| - 1]] && b == b[..|b| - 1] + [b[|b| - 1]];
  }

  /** Any corruption confined to eight consecutive bits, byte-aligned or not, changes the CRC. */
  lemma BurstErrorsDetected(a: seq<bv8>, b: seq<bv8>, start: nat)
    requires |a| == |b| && a != b
    requires DifferOnlyWithin(DataBits(a), DataBits(b), start, 8)
    ensures Crc8(a) != Crc8(b)
  {
    BytewiseIsBitwise(a);
    BytewiseIsBitwise(b);
    if DataBits(a) == DataBits(b) {
      DataBitsInjective(a, b);
    }
    SerialBurst(ZERO, DataBits(a), DataBits(b), start);
  }

  // ----- double-bit errors: the generator has order 127 -----

  /** x^7, whose next power is the first to be reduced. */
  const X7: Reg := Reg(false, false, false, false, false, false, false, true)

  predicate Period(n: nat) { FeedN(X7, n) == X7 }

  lemma {:induction false} FeedNInjective(r: Reg, s: Reg, n: nat)
    requires FeedN(r, n) == FeedN(s, n)
    ensures r == s
    decreases n
  {
    if n == 0 {
    } else {
      FeedInjective(FeedN(r, n - 1), FeedN(s, n - 1), false);
      FeedNInjective(r, s, n - 1);
    }
  }

  lemma {:induction false} FeedNSum(r: Reg, m: nat, n: nat)
    ensures FeedN(r, m + n) == FeedN(FeedN(r, m), n)
    decreases n
  {
    if n == 0 {
    } else {
      FeedNSum(r, m, n - 1);
      assert FeedN(r, m + n) == Feed(FeedN(r, m + n - 1), false);
    }
  }

  /** Euclid's algorithm by subtraction: two periods have a common divisor that is a period. */
  lemma {:induction false} CommonPeriod(a: nat, b: nat) returns (g: nat, i: nat, j: nat)
    requires a > 0 && b > 0 && Period(a) && Period(b)
    ensures g > 0 && Period(g) && a == g * i && b == g * j
    decreases a + b
  {
    if a == b {
      g, i, j := a, 1, 1;
    } else if a > b {
      FeedNSum(X7, a - b, b);
      FeedNInjective(FeedN(X7, a - b), X7, b);
      g, i, j := CommonPeriod(a - b, b);
      assert a == g * i + g * j == g * (i + j);
      i := i + j;
    } else {
      FeedNSum(X7, b - a, a);
      FeedNInjective(FeedN(X7, b - a), X7, a);
      g, i, j := CommonPeriod(a, b - a);
      assert b == g * i + g * j == g * (i + j);
      j := i + j;
    }
  }

  lemma Prime127(g: nat, k: nat)
    requires g * k == 127 && g < 127
    ensures g == 1
  {
    if g > 11 && k > 11 {
      ProductAtLeast144(g, k);
    } else if g > 11 {
      SmallFactor(k, g);
    } else {
      SmallFactor(g, k);
    }
  }

  lemma ProductAtLeast144(g: nat, k: nat)
    requires g > 11 && k > 11
    ensures g * k >= 144
  {
    assert g * k >= 12 * k;
  }

  lemma SmallFactor(g: nat, k: nat)
    requires g * k == 127 && g <= 11
    ensures g == 1
  {
    if g == 0 || g == 2 || g == 3 || g == 4 || g == 5 || g == 6 || g == 7 || g == 8 || g == 9 || g == 10 || g == 11 {
      assert false;
    }
  }

  function Shift2(b: bv8): bv8 { Shift(Shift(b)) }
  function Shift4(b: bv8): bv8 { Shift2(Shift2(b)) }
  function Shift8(b: bv8): bv8 { Shift4(Shift4(b)) }

  lemma Advance(n: nat, b: bv8, c: bv8)
    requires ShiftN(0x80, n) == b && Shift8(b) == c
    ensures ShiftN(0x80, n + 8) == c
  {
    assert ShiftN(0x80, n + 2) == Shift2(b);
    assert ShiftN(0x80, n + 4) == Shift2(ShiftN(0x80, n + 2));
    assert ShiftN(0x80, n + 6) == Shift2(ShiftN(0x80, n + 4));
    assert ShiftN(0x80, n + 8) == Shift2(ShiftN(0x80, n + 6));
  }

  /** The powers of x, eight at a time, come back to x^7 after 127. */
  lemma ShiftingBack()
    ensures ShiftN(0x80, 127) == 0x80
  {
    Advance(0, 0x80, 0x89);
    Advance(8, 0x89, 0xB6);
    Advance(16, 0xB6, 0x0B);
    Advance(24, 0x0B, 0x31);
    Advance(32, 0x31, 0x97);
    Advance(40, 0x97, 0xEC);
    Advance(48, 0xEC, 0x8A);
    Advance(56, 0x8A, 0xBF);
    Advance(64, 0xBF, 0x34);
    Advance(72, 0x34, 0x8C);
    Advance(80, 0x8C, 0xAD);
    Advance(88, 0xAD, 0x4A);
    Advance(96, 0x4A, 0xF1);
    Advance(104, 0xF1, 0xD9);
    Advance(112, 0xD9, 0x01);
    assert ShiftN(0x80, 122) == Shift2(0x01);
    assert ShiftN(0x80, 124) == Shift2(ShiftN(0x80, 122));
    assert ShiftN(0x80, 126) == Shift2(ShiftN(0x80, 124));
    assert ShiftN(0x80, 127) == 0x80;
  }

  lemma PeriodIs127()
    ensures Period(127)
  {
    ShiftingBack();
    ShiftNIsFeedN(0x80, 127);
    assert ToReg(0x80) == X7;
  }

  lemma OneIsNoPeriod()
    ensures !Period(1)
  {
    assert FeedN(X7, 1) == Feed(FeedN(X7, 0), false);
  }

  lemma NoPeriodBelow127(n: nat)
    requires 0 < n < 127
    ensures !Period(n)
  {
    PeriodIs127();
    if Period(n) {
      var g, i, j := CommonPeriod(127, n);
      FactorAtMost(g, j, n);
      Prime127(g, i);
      OneIsNoPeriod();
    }
  }

  lemma FactorAtMost(g: nat, j: nat, n: nat)
    requires n == g * j && n > 0
    ensures g <= n
  {
    assert j > 0;
    assert g * j >= g * 1;
  }

  lemma {:induction false} PeriodsAre127Multiples(n: nat)
    ensures Period(n) <==> n % 127 == 0
    decreases n
  {
    if n >= 127 {
      var m := n - 127;
      PeriodsAre127Multiples(m);
      OnePeriodMore(m);
    } else if n > 0 {
      NoPeriodBelow127(n);
    }
  }

  lemma OnePeriodMore(m: nat)
    ensures Period(127 + m) == Period(m) && (127 + m) % 127 == m % 127
  {
    PeriodIs127();
    SkipPeriod(127, m);
    Mod127(m);
  }

  lemma Mod127(m: nat)
    ensures (127 + m) % 127 == m % 127
  {
  }

  lemma SkipPeriod(n: nat, m: nat)
    requires Period(n)
    ensures Period(n + m) == Period(m)
  {
    FeedNSum(X7, n, m);
  }

  function Flip(bits: seq<bool>, i: nat): (r: seq<bool>)
    requires i < |bits|
    ensures |r| == |bits|
  {
    bits[i := !bits[i]]
  }

  lemma FeedLinear(r: Reg, s: Reg, bit: bool)
    ensures Xor(Feed(r, bit), Feed(s, bit)) == Feed(Xor(r, s), false)
  {
  }

  lemma {:induction false} SerialDifference(r: Reg, s: Reg, bits: seq<bool>)
    ensures Xor(Serial(r, bits), Serial(s, bits)) == FeedN(Xor(r, s), |bits|)
    decreases |bits|
  {
    if |bits| == 0 {
    } else {
      SerialDifference(Feed(r, bits[0]), Feed(s, bits[0]), bits[1..]);
      FeedLinear(r, s, bits[0]);
      FeedNSum(Xor(r, s), 1, |bits| - 1);
      assert FeedN(Xor(r, s), 1) == Feed(FeedN(Xor(r, s), 0), false);
    }
  }

  lemma FlipMeetsFlip(r: Reg, s: Reg, y: bool)
    ensures Feed(r, y) == Feed(s, !y) <==> Xor(r, s) == X7
  {
  }

  lemma FlipLeavesX7(r: Reg, x: bool)
    ensures Xor(Feed(r, x), Feed(r, !x)) == Feed(X7, false)
  {
  }

  lemma SerialFramed(r: Reg, x: bool, middle: seq<bool>, y: bool)
    ensures Serial(r, [x] + (middle + [y])) == Feed(Serial(Feed(r, x), middle), y)
  {
    assert ([x] + (middle + [y]))[1..] == middle + [y];
    SerialSplit(Feed(r, x), middle, [y]);
  }

  lemma FlipTravels(r: Reg, x: bool, middle: seq<bool>)
    ensures Xor(Serial(Feed(r, x), middle), Serial(Feed(r, !x), middle)) == FeedN(X7, |middle| + 1)
  {
    SerialDifference(Feed(r, x), Feed(r, !x), middle);
    FlipLeavesX7(r, x);
    FeedNSum(X7, 1, |middle|);
    assert FeedN(X7, 1) == Feed(FeedN(X7, 0), false);
  }

  /** Two flipped bits: the difference left by the first meets the second `|middle| + 1` bits later. */
  lemma FlippedPair(r: Reg, x: bool, middle: seq<bool>, y: bool)
    ensures Serial(r, [x] + (middle + [y])) == Serial(r, [!x] + (middle + [!y]))
        <==> (|middle| + 1) % 127 == 0
  {
    SerialFramed(r, x, middle, y);
    SerialFramed(r, !x, middle, !y);
    FlipMeetsFlip(Serial(Feed(r, x), middle), Serial(Feed(r, !x), middle), y);
    FlipTravels(r, x, middle);
    PeriodsAre127Multiples(|middle| + 1);
  }

  lemma FlipWindow(bits: seq<bool>, i: nat, j: nat)
    requires i < j < |bits|
    ensures bits == bits[..i] + (([bits[i]] + (bits[i + 1..j] + [bits[j]])) + bits[j + 1..])
    ensures Flip(Flip(bits, i), j)
         == bits[..i] + (([!bits[i]] + (bits[i + 1..j] + [!bits[j]])) + bits[j + 1..])
  {
  }

  lemma SerialFlips(r: Reg, bits: seq<bool>, i: nat, j: nat)
    requires i < j < |bits|
    ensures Serial(r, bits) == Serial(r, Flip(Flip(bits, i), j)) <==> (j - i) % 127 == 0
  {
    var middle, after := bits[i + 1..j], bits[j + 1..];
    var u, v := [bits[i]] + (middle + [bits[j]]), [!bits[i]] + (middle + [!bits[j]]);
    FlipWindow(bits, i, j);
    SerialAround(r, bits[..i], u, v, after);
    FlippedPair(Serial(r, bits[..i]), bits[i], middle, bits[j]);
  }

  /** Two flipped bits go unnoticed exactly when their distance is a multiple of 127 bits. */
  lemma DoubleErrorsDetected(a: seq<bv8>, b: seq<bv8>, i: nat, j: nat)
    requires |a| == |b| && i < j < 8 * |a|
    requires DataBits(b) == Flip(Flip(DataBits(a), i), j)
    ensures Crc8(a) == Crc8(b) <==> (j - i) % 127 == 0
  {
    BytewiseIsBitwise(a);
    BytewiseIsBitwise(b);
    SerialFlips(ZERO, DataBits(a), i, j);
    if ToReg(Crc8(a)) == ToReg(Crc8(b)) {
      ToRegInjective(Crc8(a), Crc8(b));
    }
  }
}
