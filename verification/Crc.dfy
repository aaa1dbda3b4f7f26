/** CRC-16 of section 2.5.1.2 of MODBUS over Serial Line V1.02, and what it detects. */
module Crc {
  import opened Gf2

  type Octets = seq<bv8>

  function Shifts(c: Reg, n: nat): Reg
    decreases n
  {
    if n == 0 then c else Shifts(Shift(c), n - 1)
  }

  function Absorb(c: Reg, v: bv8): Reg {
    Shifts(Add(c, Wide(v)), 8)
  }

  function Feed(c: Reg, data: Octets): Reg
    decreases |data|
  {
    if data == [] then c else Feed(Absorb(c, data[0]), data[1..])
  }

  function Checksum(data: Octets): Reg {
    Feed(0xffff, data)
  }

  /** The loop over a local register that computes the checksum. */
  method RtuCrc16(data: Octets) returns (crc: bv16)
    ensures crc == Checksum(data)
  {
    crc := 0xffff;
    for i := 0 to |data|
      invariant Feed(crc, data[i..]) == Checksum(data)
    {
      hide Shift, Wide;
      ghost var before := crc;
      assert data[i..][1..] == data[i + 1..];
      ByteIn(crc, data[i]);
      crc := crc ^ (data[i] as bv16);
      for k := 0 to 8
        invariant Shifts(crc, 8 - k) == Absorb(before, data[i])
      {
        StepIs(crc);
        if crc & 1 != 0 {
          crc := (crc >> 1) ^ 0xa001;
        } else {
          crc := crc >> 1;
        }
      }
    }
  }

  lemma {:induction false} ByteIn(c: Reg, v: bv8)
    ensures c ^ (v as bv16) == Add(c, Wide(v))
  {
  }

  lemma {:induction false} StepIs(c: Reg)
    ensures Shift(c) == if c & 1 != 0 then (c >> 1) ^ 0xa001 else c >> 1
  {
  }

  // ---------- Many steps ----------

  lemma {:induction false} ShiftsLinear(a: Reg, b: Reg, n: nat)
    ensures Shifts(Add(a, b), n) == Add(Shifts(a, n), Shifts(b, n))
    decreases n
  {
    hide Shift, Add;
    if n > 0 {
      ShiftLinear(a, b);
      ShiftsLinear(Shift(a), Shift(b), n - 1);
    }
  }

  lemma {:induction false} ShiftsInjective(a: Reg, b: Reg, n: nat)
    requires Shifts(a, n) == Shifts(b, n)
    ensures a == b
    decreases n
  {
    hide Shift, Unshift;
    if n > 0 {
      ShiftsInjective(Shift(a), Shift(b), n - 1);
      ShiftInvertible(a);
      ShiftInvertible(b);
    }
  }

  lemma {:induction false} ShiftsZero(n: nat)
    ensures Shifts(0, n) == 0
    decreases n
  {
    hide Shift;
    ShiftZero();
    if n > 0 {
      ShiftsZero(n - 1);
    }
  }

  // ---------- Bits in wire order ----------

  /** One step for each bit of a stream. */
  function FeedBits(c: Reg, bits: seq<bool>): Reg
    decreases |bits|
  {
    if bits == [] then c else FeedBits(Shift(Add(c, One(bits[0]))), bits[1..])
  }

  function BitsOf(v: bv8): (bits: seq<bool>)
    ensures |bits| == 8
  {
    [v & 1 != 0, v & 2 != 0, v & 4 != 0, v & 8 != 0, v & 16 != 0, v & 32 != 0, v & 64 != 0, v & 128 != 0]
  }

  function Bits(data: Octets): (bits: seq<bool>)
    ensures |bits| == 8 * |data|
  {
    if data == [] then [] else BitsOf(data[0]) + Bits(data[1..])
  }

  /** The bits as a register value, the first bit lowest. */
  function Word(bits: seq<bool>): Reg
    decreases |bits|
  {
    if bits == [] then 0 else Add(Double(Word(bits[1..])), One(bits[0]))
  }

  /** Fifteen bits leave the top of the register free. */
  lemma {:induction false} WordTop(bits: seq<bool>)
    requires |bits| <= 15
    ensures !Top(Word(bits)) && Halves(Word(bits), |bits|) == 0
    decreases |bits|
  {
    hide Add, Double, Half, One, Top, Lsb;
    Constants();
    if bits != [] {
      var w := Word(bits[1..]);
      WordTop(bits[1..]);
      WordHalf(w, bits[0]);
      HalvesAdd(Word(bits), |bits|, 15 - |bits|);
      HalvesZero(15 - |bits|);
      FifteenHalves(Word(bits));
    }
  }

  lemma {:induction false} WordHalf(w: Reg, b: bool)
    requires !Top(w)
    ensures Half(Add(Double(w), One(b))) == w
  {
    hide Add, Double, Half, One, Top, Lsb;
    Constants();
    BitsAdd(Double(w), One(b));
    HalfDouble(w);
    AddZero(w);
  }

  lemma {:induction false} WordNonzero(bits: seq<bool>)
    requires |bits| <= 16 && true in bits
    ensures Word(bits) != 0
    decreases |bits|
  {
    hide Add, Double, Half, One, Top, Lsb;
    Constants();
    var w := Word(bits[1..]);
    if bits[0] {
      HalfDouble(w);
      BitsAdd(Double(w), One(true));
    } else {
      assert true in bits[1..];
      WordNonzero(bits[1..]);
      WordTop(bits[1..]);
      WordHalf(w, false);
    }
  }

  /** Up to sixteen bits may be put into the register at once. */
  lemma {:induction false} FeedWord(c: Reg, bits: seq<bool>)
    requires |bits| <= 16
    ensures FeedBits(c, bits) == Shifts(Add(c, Word(bits)), |bits|)
    decreases |bits|
  {
    hide Shift, Add, Double, Half, One, Lsb, Top;
    if bits == [] {
      AddZero(c);
    } else {
      var b, w := One(bits[0]), Word(bits[1..]);
      WordTop(bits[1..]);
      HalfDouble(w);
      AddLaws(Double(w), b, 0);
      AddLaws(c, b, Double(w));
      ShiftEven(Add(c, b), Double(w));
      FeedWord(Shift(Add(c, b)), bits[1..]);
    }
  }

  lemma {:induction false} WordStep(s: seq<bool>, k: nat)
    requires k < |s|
    ensures Word(s[k..]) == Add(Double(Word(s[k + 1..])), One(s[k]))
  {
    hide Add, Double, One;
    assert s[k..][1..] == s[k + 1..];
  }

  lemma {:induction false} WordOfByte(v: bv8)
    ensures Word(BitsOf(v)) == Wide(v)
  {
    var s := BitsOf(v);
    assert s[8..] == [] && s[0..] == s;
    WordStep(s, 7);
    WordStep(s, 6);
    WordStep(s, 5);
    WordStep(s, 4);
    WordStep(s, 3);
    WordStep(s, 2);
    WordStep(s, 1);
    WordStep(s, 0);
    hide Word, Add, Double, One, Wide;
    ByteOfBits(v, Word(s[1..]), Word(s[2..]), Word(s[3..]), Word(s[4..]), Word(s[5..]), Word(s[6..]), Word(s[7..]));
  }

  lemma {:induction false} ByteOfBits(v: bv8, w1: Reg, w2: Reg, w3: Reg, w4: Reg, w5: Reg, w6: Reg, w7: Reg)
    requires w7 == Add(Double(0), One(v & 128 != 0))
    requires w6 == Add(Double(w7), One(v & 64 != 0))
    requires w5 == Add(Double(w6), One(v & 32 != 0))
    requires w4 == Add(Double(w5), One(v & 16 != 0))
    requires w3 == Add(Double(w4), One(v & 8 != 0))
    requires w2 == Add(Double(w3), One(v & 4 != 0))
    requires w1 == Add(Double(w2), One(v & 2 != 0))
    ensures Add(Double(w1), One(v & 1 != 0)) == Wide(v)
  {
  }

  lemma {:induction false} FeedBitsAppend(c: Reg, a: seq<bool>, b: seq<bool>)
    ensures FeedBits(c, a + b) == FeedBits(FeedBits(c, a), b)
    decreases |a|
  {
    hide Shift, Add, One;
    if a == [] {
      assert a + b == b;
    } else {
      assert (a + b)[1..] == a[1..] + b;
      FeedBitsAppend(Shift(Add(c, One(a[0]))), a[1..], b);
    }
  }

  lemma {:induction false} AbsorbIsSerial(c: Reg, v: bv8)
    ensures Absorb(c, v) == FeedBits(c, BitsOf(v))
  {
    hide Shift, Shifts, BitsOf, Word, FeedBits, Add, Wide;
    FeedWord(c, BitsOf(v));
    WordOfByte(v);
  }

  /** Feeding bytes is feeding their bits in wire order. */
  lemma {:induction false} FeedIsSerial(c: Reg, data: Octets)
    ensures Feed(c, data) == FeedBits(c, Bits(data))
    decreases |data|
  {
    hide Absorb, BitsOf, FeedBits;
    if data == [] {
      FeedNothing(c);
    } else {
      AbsorbIsSerial(c, data[0]);
      FeedBitsAppend(c, BitsOf(data[0]), Bits(data[1..]));
      FeedIsSerial(Absorb(c, data[0]), data[1..]);
    }
  }

  lemma {:induction false} FeedNothing(c: Reg)
    ensures FeedBits(c, []) == c
  {
  }

  // ---------- The trailer ----------

  function Low(c: Reg): bv8 {
    (c & 0xff) as bv8
  }

  function High(c: Reg): bv8 {
    (c >> 8) as bv8
  }

  function Joined(low: bv8, high: bv8): Reg {
    (low as bv16) | ((high as bv16) << 8)
  }

  lemma {:induction false} JoinedParts(c: Reg)
    ensures Joined(Low(c), High(c)) == c
  {
  }

  lemma {:induction false} PartsJoined(low: bv8, high: bv8)
    ensures Low(Joined(low, high)) == low && High(Joined(low, high)) == high
  {
  }

  lemma {:induction false} FeedAppend(c: Reg, a: Octets, b: Octets)
    ensures Feed(c, a + b) == Feed(Feed(c, a), b)
    decreases |a|
  {
    hide Absorb;
    if a == [] {
      assert a + b == b;
    } else {
      assert (a + b)[1..] == a[1..] + b;
      FeedAppend(Absorb(c, a[0]), a[1..], b);
    }
  }

  lemma {:induction false} DoublesAdd(a: Reg, b: Reg, n: nat)
    ensures Doubles(Add(a, b), n) == Add(Doubles(a, n), Doubles(b, n))
    decreases n
  {
    hide Add, Double, Half, Lsb, Top;
    if n > 0 {
      BitsAdd(a, b);
      DoublesAdd(Double(a), Double(b), n - 1);
    }
  }

  lemma {:induction false} DoublesMore(c: Reg, n: nat)
    ensures Doubles(c, n + 1) == Double(Doubles(c, n))
    decreases n
  {
    hide Double;
    if n > 0 {
      DoublesMore(Double(c), n - 1);
    }
  }

  lemma {:induction false} WordAppend(a: seq<bool>, b: seq<bool>)
    ensures Word(a + b) == Add(Word(a), Doubles(Word(b), |a|))
    decreases |a|
  {
    hide Add, Double, One, Half, Lsb, Top;
    if a == [] {
      assert a + b == b;
      AddZero(Word(b));
    } else {
      assert (a + b)[1..] == a[1..] + b;
      WordAppend(a[1..], b);
      var w, d := Word(a[1..]), Doubles(Word(b), |a| - 1);
      DoublesMore(Word(b), |a| - 1);
      BitsAdd(w, d);
      AddLaws(Double(w), Double(d), One(a[0]));
      AddLaws(Double(d), One(a[0]), 0);
      AddLaws(Double(w), One(a[0]), Double(d));
    }
  }

  lemma {:induction false} JoinedIsWord(low: bv8, high: bv8)
    ensures Word(BitsOf(low) + BitsOf(high)) == Joined(low, high)
  {
    hide Word, BitsOf, Doubles;
    WordAppend(BitsOf(low), BitsOf(high));
    WordOfByte(low);
    WordOfByte(high);
    EightDoubles(Wide(high));
    JoinIsAdd(low, high);
  }

  lemma {:induction false} JoinIsAdd(low: bv8, high: bv8)
    ensures Add(Wide(low), Wide(high) << 8) == Joined(low, high)
  {
  }

  lemma {:induction false} PairBits(low: bv8, high: bv8)
    ensures Bits([low, high]) == BitsOf(low) + BitsOf(high)
  {
    hide BitsOf;
    assert [low, high][1..] == [high] && [high][1..] == [];
    assert BitsOf(high) + [] == BitsOf(high);
  }

  lemma {:induction false} TrailerIsWord(c: Reg, low: bv8, high: bv8)
    ensures Feed(c, [low, high]) == Shifts(Add(c, Joined(low, high)), 16)
  {
    hide Shifts, Feed, FeedBits, Word, Joined, Add, BitsOf, Bits;
    FeedIsSerial(c, [low, high]);
    PairBits(low, high);
    FeedWord(c, BitsOf(low) + BitsOf(high));
    JoinedIsWord(low, high);
  }

  /** The register over data and low-byte-first trailer is zero exactly when the trailer is the checksum. */
  lemma {:induction false} ResidueZeroIff(data: Octets, low: bv8, high: bv8)
    ensures Checksum(data + [low, high]) == 0 <==> Joined(low, high) == Checksum(data)
  {
    hide Shifts, Feed, Joined, Add;
    var c := Checksum(data);
    FeedAppend(0xffff, data, [low, high]);
    TrailerIsWord(c, low, high);
    ShiftsZero(16);
    AddZeroIff(c, Joined(low, high));
    if Shifts(Add(c, Joined(low, high)), 16) == 0 {
      ShiftsInjective(Add(c, Joined(low, high)), 0, 16);
    }
  }

  // ---------- What a corruption does to the register ----------

  function Flip(a: Octets, b: Octets): (c: Octets)
    requires |a| == |b|
    ensures |c| == |a|
  {
    seq(|a|, i requires 0 <= i < |a| => a[i] ^ b[i])
  }

  lemma {:induction false} WideAdd(v: bv8, w: bv8)
    ensures Wide(v ^ w) == Add(Wide(v), Wide(w))
  {
  }

  lemma {:induction false} AbsorbAdd(c: Reg, d: Reg, v: bv8, w: bv8)
    ensures Absorb(Add(c, d), v ^ w) == Add(Absorb(c, v), Absorb(d, w))
  {
    hide Shifts, Add, Wide;
    WideAdd(v, w);
    AddFour(c, d, Wide(v), Wide(w));
    ShiftsLinear(Add(c, Wide(v)), Add(d, Wide(w)), 8);
  }

  /** The register is linear in everything it was fed. */
  lemma {:induction false} FeedLinear(c: Reg, d: Reg, a: Octets, b: Octets)
    requires |a| == |b|
    ensures Feed(Add(c, d), Flip(a, b)) == Add(Feed(c, a), Feed(d, b))
    decreases |a|
  {
    hide Absorb, Add;
    if a != [] {
      AbsorbAdd(c, d, a[0], b[0]);
      assert Flip(a, b)[1..] == Flip(a[1..], b[1..]);
      FeedLinear(Absorb(c, a[0]), Absorb(d, b[0]), a[1..], b[1..]);
    }
  }

  /** What a flip pattern adds to the register, whatever the frame was. */
  lemma {:induction false} FlipsAdd(frame: Octets, flips: Octets)
    requires |flips| == |frame|
    ensures Checksum(Flip(frame, flips)) == Add(Checksum(frame), FeedBits(0, Bits(flips)))
  {
    hide Feed, FeedBits, Bits, Add;
    AddZero(0xffff);
    FeedLinear(0xffff, 0, frame, flips);
    FeedIsSerial(0, flips);
  }

  // ---------- Odd flips ----------

  function OddBits(bits: seq<bool>): bool {
    if bits == [] then false else bits[0] != OddBits(bits[1..])
  }

  lemma {:induction false} FeedParity(c: Reg, bits: seq<bool>)
    ensures Odd(FeedBits(c, bits)) == (Odd(c) != OddBits(bits))
    decreases |bits|
  {
    hide Shift, OddIn, Add, One;
    if bits != [] {
      var b := One(bits[0]);
      OddAdd(c, b, 16);
      OddOnes();
      OneIs();
      ShiftKeepsParity(Add(c, b));
      FeedParity(Shift(Add(c, b)), bits[1..]);
    }
  }

  lemma {:induction false} OddIsDetected(bits: seq<bool>)
    requires OddBits(bits)
    ensures FeedBits(0, bits) != 0
  {
    hide FeedBits, Odd;
    FeedParity(0, bits);
    OddOnes();
  }

  // ---------- Bursts ----------

  lemma {:induction false} ZeroBit(c: Reg)
    ensures Add(c, One(false)) == c
  {
  }

  lemma {:induction false} ZerosKeepZero(bits: seq<bool>)
    requires true !in bits
    ensures FeedBits(0, bits) == 0
    decreases |bits|
  {
    hide Shift, Add, One;
    if bits != [] {
      assert !bits[0];
      ZeroBit(0);
      ShiftZero();
      ZerosKeepZero(bits[1..]);
    }
  }

  lemma {:induction false} ShiftNonzero(c: Reg)
    requires c != 0
    ensures Shift(c) != 0
  {
    hide Shift, Unshift;
    ShiftInvertible(c);
    ShiftZero();
  }

  lemma {:induction false} ZerosKeepNonzero(c: Reg, bits: seq<bool>)
    requires true !in bits && c != 0
    ensures FeedBits(c, bits) != 0
    decreases |bits|
  {
    hide Shift, Add, One;
    if bits != [] {
      assert !bits[0];
      ZeroBit(c);
      ShiftNonzero(c);
      ZerosKeepNonzero(Shift(c), bits[1..]);
    }
  }

  /** A burst inside sixteen consecutive bits cannot cancel itself. */
  lemma {:induction false} BurstIsDetected(bits: seq<bool>, from: nat)
    requires from + 16 <= |bits| && true in bits
    requires forall i :: 0 <= i < |bits| && bits[i] ==> from <= i < from + 16
    ensures FeedBits(0, bits) != 0
  {
    hide FeedBits, Word, Shifts, Add;
    var before, burst, after := bits[..from], bits[from..from + 16], bits[from + 16..];
    assert bits == before + (burst + after);
    FeedBitsAppend(0, before, burst + after);
    ZerosKeepZero(before);
    FeedBitsAppend(0, burst, after);
    var i :| 0 <= i < |bits| && bits[i];
    assert burst[i - from];
    FeedWord(0, burst);
    WordNonzero(burst);
    AddZero(Word(burst));
    ShiftsZero(16);
    if Shifts(Word(burst), 16) == 0 {
      ShiftsInjective(Word(burst), 0, 16);
    }
    ZerosKeepNonzero(FeedBits(0, burst), after);
  }
}
