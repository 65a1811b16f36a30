/**
 The checksum of the workbook writer: a 32-bit register, shifted one bit at a time.

 A register is the number its bits spell. JavaScript's `^` leaves a signed reading behind, but
 `>>>` and the last `>>> 0` read the same 32 bits as an unsigned number, which is the reading
 used here; `StepFits` and `ChecksumFits` show that no step needs more than 32 bits.
 */
module Crc32 {
  import opened Prelude

  const POLYNOMIAL: nat := 0xedb8_8320
  const ALL_ONES: nat := 0xffff_ffff

  function Power(k: nat): (p: nat)
    ensures p >= 1
  {
    if k == 0 then 1 else 2 * Power(k - 1)
  }

  /** `x << n`, `x >> n` and the low `n` digits of `x`. */
  function Shl(x: nat, n: nat): nat {
    if n == 0 then x else 2 * Shl(x, n - 1)
  }

  function Shr(x: nat, n: nat): nat {
    if n == 0 then x else Shr(x / 2, n - 1)
  }

  function Low(x: nat, n: nat): nat {
    if n == 0 then 0 else x % 2 + 2 * Low(x / 2, n - 1)
  }

  /** Exclusive or, digit by digit. */
  function Xor(a: nat, b: nat): nat
    decreases a + b
  {
    if a == 0 && b == 0 then 0 else 2 * Xor(a / 2, b / 2) + (if a % 2 == b % 2 then 0 else 1)
  }

  /** One turn of the inner loop. */
  function Step(c: nat): nat {
    Xor(c / 2, if c % 2 == 1 then POLYNOMIAL else 0)
  }

  function Steps(c: nat, n: nat): nat
    decreases n
  {
    if n == 0 then c else Steps(Step(c), n - 1)
  }

  /** Mixes one byte into the low end of the register and takes `n` steps, which is eight below. */
  function Absorb(c: nat, b: byte, n: nat): nat {
    Steps(Xor(c, b), n)
  }

  function AbsorbAll(c: nat, data: seq<byte>, n: nat): nat {
    if data == [] then c else Absorb(AbsorbAll(c, data[..|data| - 1], n), data[|data| - 1], n)
  }

  function Checksum(data: seq<byte>): nat {
    Xor(AbsorbAll(ALL_ONES, data, 8), ALL_ONES)
  }

  method Crc32(data: array<byte>) returns (result: nat)
    ensures result == Checksum(data[..])
  {
    var crc := ALL_ONES;
    for j := 0 to data.Length
      invariant crc == AbsorbAll(ALL_ONES, data[..j], 8)
    {
      crc := Xor(crc, data[j]);
      ghost var mixed := crc;
      for i := 0 to 8
        invariant Steps(crc, 8 - i) == Steps(mixed, 8)
      {
        crc := Step(crc);
      }
      assert data[..j + 1][..j] == data[..j];
    }
    assert data[..data.Length] == data[..];
    result := Xor(crc, ALL_ONES);
  }

  // ---- Laws of exclusive or ----

  lemma {:induction false} XorDigits(a: nat, b: nat)
    ensures Xor(a, b) / 2 == Xor(a / 2, b / 2)
    ensures Xor(a, b) % 2 == if a % 2 == b % 2 then 0 else 1
  {
  }

  lemma {:induction false} XorZero(a: nat)
    ensures Xor(a, 0) == a
    ensures Xor(0, a) == a
    ensures Xor(a, a) == 0
  {
    if a > 0 {
      XorZero(a / 2);
    }
  }

  lemma {:induction false} XorCommutes(a: nat, b: nat)
    ensures Xor(a, b) == Xor(b, a)
    decreases a + b
  {
    if a + b > 0 {
      XorCommutes(a / 2, b / 2);
    }
  }

  lemma {:induction false} XorAssociates(a: nat, b: nat, c: nat)
    ensures Xor(Xor(a, b), c) == Xor(a, Xor(b, c))
    decreases a + b + c
  {
    XorDigits(a, b);
    XorDigits(b, c);
    XorDigits(Xor(a, b), c);
    XorDigits(a, Xor(b, c));
    if a + b + c > 0 {
      XorAssociates(a / 2, b / 2, c / 2);
    } else {
      XorZero(0);
    }
  }

  /** Mixing the same pattern into both operands of an exclusive or changes nothing. */
  lemma {:induction false} XorCancels(a: nat, b: nat, p: nat)
    ensures Xor(Xor(a, p), p) == a
    ensures Xor(Xor(a, p), b) == Xor(Xor(a, b), p)
    ensures Xor(Xor(a, p), Xor(b, p)) == Xor(a, b)
    ensures Xor(a, Xor(b, p)) == Xor(Xor(a, b), p)
  {
    XorAssociates(a, p, p);
    XorZero(p);
    XorZero(a);
    XorAssociates(a, p, b);
    XorCommutes(p, b);
    XorAssociates(a, b, p);
    XorAssociates(a, p, Xor(b, p));
    XorAssociates(p, p, b);
    XorCommutes(b, p);
    XorZero(b);
  }

  lemma {:induction false} XorIsInjective(a: nat, b: nat, p: nat)
    ensures Xor(a, p) == Xor(b, p) ==> a == b
  {
    XorCancels(a, b, p);
    XorCancels(b, a, p);
  }

  lemma {:induction false} XorFits(a: nat, b: nat, k: nat)
    requires a < Power(k) && b < Power(k)
    ensures Xor(a, b) < Power(k)
  {
    if k > 0 {
      XorFits(a / 2, b / 2, k - 1);
    }
  }

  /** The top digit of an exclusive or. */
  lemma {:induction false} XorTop(a: nat, b: nat, k: nat)
    requires a < 2 * Power(k) && Power(k) <= b < 2 * Power(k)
    ensures Xor(a, b) >= Power(k) <==> a < Power(k)
  {
    if k > 0 {
      XorTop(a / 2, b / 2, k - 1);
    } else {
      assert b == 1 && Xor(1, 1) == 0 && Xor(0, 1) == 1;
    }
  }

  /** Numbers with no digit position in common: exclusive or adds them. */
  lemma {:induction false} XorAdds(low: nat, high: nat, n: nat)
    requires low < Power(n)
    ensures Xor(low, Shl(high, n)) == low + Shl(high, n)
  {
    if n == 0 {
      XorZero(high);
    } else {
      XorDigits(low, Shl(high, n));
      XorAdds(low / 2, high, n - 1);
    }
  }

  lemma {:induction false} LowAndHigh(x: nat, n: nat)
    ensures Low(x, n) < Power(n)
    ensures x == Low(x, n) + Shl(Shr(x, n), n)
  {
    if n > 0 {
      LowAndHigh(x / 2, n - 1);
    }
  }

  lemma {:induction false} DigitsOfSum(low: nat, high: nat, n: nat)
    requires low < Power(n)
    ensures Low(low + Shl(high, n), n) == low
    ensures Shr(low + Shl(high, n), n) == high
  {
    if n > 0 {
      var sum := low + Shl(high, n);
      assert sum / 2 == low / 2 + Shl(high, n - 1);
      DigitsOfSum(low / 2, high, n - 1);
    }
  }

  lemma PowersOfBytes()
    ensures Power(8) == 0x100 && Power(24) == 0x100_0000
    ensures Power(31) == 0x8000_0000 && Power(32) == 0x1_0000_0000
  {
    assert Power(8) == 0x100;
    assert Power(16) == 0x1_0000;
    assert Power(24) == 0x100_0000;
    assert Power(31) == 0x8000_0000;
  }

  // ---- One step is linear and invertible ----

  lemma StepFits(c: nat)
    requires c <= ALL_ONES
    ensures Step(c) <= ALL_ONES
  {
    MixFits(c / 2, if c % 2 == 1 then POLYNOMIAL else 0);
  }

  lemma {:induction false} StepsFit(c: nat, n: nat)
    requires c <= ALL_ONES
    ensures Steps(c, n) <= ALL_ONES
    decreases n
  {
    if n > 0 {
      StepFits(c);
      StepsFit(Step(c), n - 1);
    }
  }

  lemma {:induction false} AbsorbAllFits(c: nat, data: seq<byte>, n: nat)
    requires c <= ALL_ONES
    ensures AbsorbAll(c, data, n) <= ALL_ONES
  {
    if data != [] {
      var before := AbsorbAll(c, data[..|data| - 1], n);
      AbsorbAllFits(c, data[..|data| - 1], n);
      MixFits(before, data[|data| - 1]);
      StepsFit(Xor(before, data[|data| - 1]), n);
    }
  }

  lemma {:induction false} MixFits(a: nat, b: nat)
    requires a <= ALL_ONES && b <= ALL_ONES
    ensures Xor(a, b) <= ALL_ONES
  {
    PowersOfBytes();
    XorFits(a, b, 32);
  }

  lemma ChecksumFits(data: seq<byte>)
    ensures Checksum(data) <= ALL_ONES
  {
    AbsorbAllFits(ALL_ONES, data, 8);
    MixFits(AbsorbAll(ALL_ONES, data, 8), ALL_ONES);
  }

  lemma {:induction false} StepIsLinear(a: nat, b: nat)
    ensures Step(Xor(a, b)) == Xor(Step(a), Step(b))
  {
    XorDigits(a, b);
    XorCancels(a / 2, b / 2, POLYNOMIAL);
    XorZero(a / 2);
    XorZero(b / 2);
    XorZero(Xor(a / 2, b / 2));
  }

  lemma {:induction false} StepsAreLinear(a: nat, b: nat, n: nat)
    ensures Steps(Xor(a, b), n) == Xor(Steps(a, n), Steps(b, n))
    decreases n
  {
    if n > 0 {
      StepIsLinear(a, b);
      StepsAreLinear(Step(a), Step(b), n - 1);
    }
  }

  /** The register one step earlier: the top bit says whether the polynomial was mixed in. */
  function Unstep(c: nat): nat {
    if c >= 0x8000_0000 then 2 * Xor(c, POLYNOMIAL) + 1 else 2 * c
  }

  /** Mixing in a pattern whose top bit is set flips the top bit, and doing it twice undoes it. */
  lemma {:induction false} MixFlipsTopBit(c: nat, p: nat)
    requires c <= ALL_ONES && 0x8000_0000 <= p <= ALL_ONES
    ensures Xor(c, p) >= 0x8000_0000 <==> c < 0x8000_0000
    ensures Xor(c, p) <= ALL_ONES
    ensures Xor(Xor(c, p), p) == c
  {
    PowersOfBytes();
    XorTop(c, p, 31);
    XorFits(c, p, 32);
    XorCancels(c, 0, p);
  }

  lemma UnstepUndoesStep(c: nat)
    requires c <= ALL_ONES
    ensures Unstep(Step(c)) == c
  {
    if c % 2 == 1 {
      MixFlipsTopBit(c / 2, POLYNOMIAL);
    } else {
      XorZero(c / 2);
    }
  }

  lemma StepUndoesUnstep(c: nat)
    requires c <= ALL_ONES
    ensures Unstep(c) <= ALL_ONES && Step(Unstep(c)) == c
  {
    if c >= 0x8000_0000 {
      MixFlipsTopBit(c, POLYNOMIAL);
    } else {
      XorZero(c);
    }
  }

  /** `Step` is a bijection on 32-bit registers, with `Unstep` as its inverse on both sides. */
  lemma StepIsBijective(c: nat)
    requires c <= ALL_ONES
    ensures Unstep(Step(c)) == c
    ensures Unstep(c) <= ALL_ONES && Step(Unstep(c)) == c
  {
    UnstepUndoesStep(c);
    StepUndoesUnstep(c);
  }

  lemma {:induction false} StepsAreInjective(a: nat, b: nat, n: nat)
    requires a <= ALL_ONES && b <= ALL_ONES
    ensures Steps(a, n) == Steps(b, n) ==> a == b
    decreases n
  {
    if n > 0 {
      StepIsBijective(a);
      StepIsBijective(b);
      StepFits(a);
      StepFits(b);
      StepsAreInjective(Step(a), Step(b), n - 1);
    }
  }

  lemma {:induction false} StepsCompose(c: nat, m: nat, n: nat)
    ensures Steps(Steps(c, m), n) == Steps(c, m + n)
    decreases m
  {
    if m > 0 {
      StepsCompose(Step(c), m - 1, n);
    }
  }

  /** A register whose low digits are zero is only shifted. */
  lemma {:induction false} StepsShift(high: nat, n: nat)
    ensures Steps(Shl(high, n), n) == high
    decreases n
  {
    if n > 0 {
      XorZero(Shl(high, n - 1));
      assert Step(Shl(high, n)) == Shl(high, n - 1);
      StepsShift(high, n - 1);
    }
  }

  // ---- The table-driven algorithm of section 8 of RFC 1952 ----

  /** Entry `index` of the table: `n` steps from the index itself. */
  function TableEntry(index: nat, n: nat): nat {
    Steps(index, n)
  }

  function AbsorbByTable(c: nat, b: byte, n: nat): nat {
    Xor(TableEntry(Low(Xor(c, b), n), n), Shr(c, n))
  }

  function AbsorbAllByTable(c: nat, data: seq<byte>, n: nat): nat {
    if data == [] then c else AbsorbByTable(AbsorbAllByTable(c, data[..|data| - 1], n), data[|data| - 1], n)
  }

  /** Exclusive or with a small number leaves the digits above it alone. */
  lemma {:induction false} XorKeepsHigh(c: nat, b: nat, n: nat)
    requires b < Power(n)
    ensures Shr(Xor(c, b), n) == Shr(c, n)
  {
    if n == 0 {
      XorZero(c);
    } else {
      XorDigits(c, b);
      XorKeepsHigh(c / 2, b / 2, n - 1);
    }
  }

  /** Steps consume the low digits and shift the rest down. */
  lemma ConsumeLow(low: nat, high: nat, n: nat)
    requires low < Power(n)
    ensures Steps(low + Shl(high, n), n) == Xor(Steps(low, n), high)
  {
    hide Xor, Steps, Shl, Power;
    XorAdds(low, high, n);
    StepsAreLinear(low, Shl(high, n), n);
    StepsShift(high, n);
  }

  lemma {:induction false} TableStepAgrees(c: nat, b: byte, n: nat)
    requires b < Power(n)
    ensures Absorb(c, b, n) == AbsorbByTable(c, b, n)
  {
    var x := Xor(c, b);
    XorKeepsHigh(c, b, n);
    LowAndHigh(x, n);
    ConsumeLow(Low(x, n), Shr(x, n), n);
  }

  /**
   The bit-at-a-time loop computes the table-driven CRC-32 on every byte string, whatever the
   width of the table; the standard one has `n` = 8.
   */
  lemma {:induction false} TableAgrees(c: nat, data: seq<byte>, n: nat)
    requires 0x100 <= Power(n)
    ensures AbsorbAll(c, data, n) == AbsorbAllByTable(c, data, n)
  {
    if data != [] {
      TableAgrees(c, data[..|data| - 1], n);
      TableStepAgrees(AbsorbAll(c, data[..|data| - 1], n), data[|data| - 1], n);
    }
  }

  lemma {:induction false} ShlMultiplies(x: nat, n: nat)
    ensures Shl(x, n) == Power(n) * x
  {
    if n > 0 {
      ShlMultiplies(x, n - 1);
      assert 2 * (Power(n - 1) * x) == (2 * Power(n - 1)) * x;
    }
  }

  lemma AtLeastOnce(p: nat, d: nat)
    requires d >= 1
    ensures p * d >= p
  {
  }

  lemma SmallerQuotient(p: nat, a: nat, r: nat, b: nat, s: nat)
    requires a < b && r < p
    ensures p * a + r != p * b + s
  {
    AtLeastOnce(p, b - a);
    assert p * (b - a) == p * b - p * a;
  }

  lemma DivideBy(x: nat, low: nat, high: nat, p: nat)
    requires x == low + p * high && low < p
    ensures low == x % p && high == x / p
  {
    var q, r := x / p, x % p;
    assert x == p * q + r && r < p;
    if high < q {
      SmallerQuotient(p, high, low, q, r);
    } else if q < high {
      SmallerQuotient(p, q, r, high, low);
    }
  }

  /** Dropping and keeping the low digits are division and remainder. */
  lemma {:induction false} LowDigits(x: nat, n: nat)
    ensures Low(x, n) == x % Power(n) && Shr(x, n) == x / Power(n)
  {
    hide Low, Shr, Shl;
    LowAndHigh(x, n);
    ShlMultiplies(Shr(x, n), n);
    DivideBy(x, Low(x, n), Shr(x, n), Power(n));
  }

  /** With eight bits, the table index is `& 0xff` and the shift is `>> 8`. */
  lemma {:induction false} LowByte(x: nat)
    ensures Low(x, 8) == x % 0x100 && Shr(x, 8) == x / 0x100
  {
    hide Low, Shr, Power;
    LowDigits(x, 8);
    PowersOfBytes();
  }

  lemma {:induction false} ChecksumByTable(data: seq<byte>)
    ensures Checksum(data) == Xor(AbsorbAllByTable(ALL_ONES, data, 8), ALL_ONES)
  {
    PowersOfBytes();
    TableAgrees(ALL_ONES, data, 8);
  }

  /** Section 8 of RFC 1952: the entries of its table at 1, 2, 4 and so on up to 128. */
  const TABLE_OF_POWERS: seq<nat> := [
    0x7707_3096, 0xee0e_612c, 0x076d_c419, 0x0edb_8832, 0x1db7_1064, 0x3b6e_20c8, 0x76dc_4190, 0xedb8_8320
  ]

  /** Any other entry mixes those of the powers of two that make up its index. */
  function MixedEntry(index: nat, powers: seq<nat>): nat {
    if powers == [] then 0
    else Xor(if index % 2 == 1 then powers[0] else 0, MixedEntry(index / 2, powers[1..]))
  }

  /** Exclusive or of digits to base four: of three different ones that are not zero, any two give the third. */
  function MixPairs(a: nat, b: nat): nat {
    if a == b then 0 else if a == 0 then b else if b == 0 then a else if a + b <= 6 then 6 - a - b else 0
  }

  lemma XorOneDigit(a: nat, x: nat, b: nat, y: nat)
    requires x < 2 && y < 2
    ensures Xor(2 * a + x, 2 * b + y) == 2 * Xor(a, b) + if x == y then 0 else 1
  {
    XorDigits(2 * a + x, 2 * b + y);
  }

  lemma XorOnePair(a: nat, x: nat, b: nat, y: nat)
    requires x < 4 && y < 4
    ensures Xor(4 * a + x, 4 * b + y) == 4 * Xor(a, b) + MixPairs(x, y)
  {
    hide Xor;
    XorOneDigit(2 * a + x / 2, x % 2, 2 * b + y / 2, y % 2);
    XorOneDigit(a, x / 2, b, y / 2);
  }

  lemma XorOneHex(a: nat, x: nat, b: nat, y: nat)
    requires x < 16 && y < 16
    ensures Xor(16 * a + x, 16 * b + y) == 16 * Xor(a, b) + 4 * MixPairs(x / 4, y / 4) + MixPairs(x % 4, y % 4)
  {
    hide Xor, MixPairs;
    XorOnePair(4 * a + x / 4, x % 4, 4 * b + y / 4, y % 4);
    XorOnePair(a, x / 4, b, y / 4);
  }

  /** The one sum in the table of powers that is more than a shift. */
  lemma OneSum()
    ensures Xor(0x03b6_e20c, 0xedb8_8320) == 0xee0e_612c
  {
    hide Xor;
    XorZero(0);
    XorOneHex(0, 0x0, 0, 0xe);
    XorOneHex(0x0, 0x3, 0xe, 0xd);
    XorOneHex(0x03, 0xb, 0xed, 0xb);
    XorOneHex(0x03b, 0x6, 0xedb, 0x8);
    XorOneHex(0x03b6, 0xe, 0xedb8, 0x8);
    XorOneHex(0x03b6e, 0x2, 0xedb88, 0x3);
    XorOneHex(0x03b6e2, 0x0, 0xedb883, 0x2);
    XorOneHex(0x03b6e20, 0xc, 0xedb8832, 0x0);
  }

  lemma EvenStep(c: nat)
    requires c % 2 == 0
    ensures Step(c) == c / 2
  {
    XorZero(c / 2);
  }

  lemma {:induction false} OddStep(c: nat)
    requires c % 2 == 1
    ensures Step(c) == Xor(c / 2, 0xedb8_8320)
  {
    hide Xor;
  }

  lemma FirstStep()
    ensures Step(1) == 0xedb8_8320
  {
    hide Xor, Step;
    OddStep(1);
    XorZero(0xedb8_8320);
  }

  lemma SeventhStep()
    ensures Step(0x076d_c419) == 0xee0e_612c
  {
    hide Xor, Step;
    OddStep(0x076d_c419);
    OneSum();
  }

  /** The register that starts from one bit, step by step. */
  lemma StepsOfOne()
    ensures Step(1) == 0xedb8_8320 && Step(0xedb8_8320) == 0x76dc_4190 && Step(0x76dc_4190) == 0x3b6e_20c8
    ensures Step(0x3b6e_20c8) == 0x1db7_1064 && Step(0x1db7_1064) == 0x0edb_8832 && Step(0x0edb_8832) == 0x076d_c419
    ensures Step(0x076d_c419) == 0xee0e_612c && Step(0xee0e_612c) == 0x7707_3096
  {
    hide Step;
    FirstStep();
    EvenStep(0xedb8_8320);
    EvenStep(0x76dc_4190);
    EvenStep(0x3b6e_20c8);
    EvenStep(0x1db7_1064);
    EvenStep(0x0edb_8832);
    SeventhStep();
    EvenStep(0xee0e_612c);
  }

  lemma {:induction false} PowerEntry(k: nat)
    requires k < 8
    ensures Steps(1, 8 - k) == TABLE_OF_POWERS[k]
    decreases 8 - k
  {
    hide Step;
    StepsOfOne();
    if k == 7 {
      assert Steps(1, 1) == Steps(Step(1), 0);
    } else {
      PowerEntry(k + 1);
      StepsCompose(1, 7 - k, 1);
      assert Steps(TABLE_OF_POWERS[k + 1], 1) == Steps(Step(TABLE_OF_POWERS[k + 1]), 0);
    }
  }

  lemma {:induction false} StepsOfZero(n: nat)
    ensures Steps(0, n) == 0
  {
    if n > 0 {
      EvenStep(0);
      StepsOfZero(n - 1);
    }
  }

  lemma {:induction false} MixedSteps(index: nat, k: nat)
    requires k <= 8 && index < Power(8 - k)
    ensures Steps(index, 8 - k) == MixedEntry(index, TABLE_OF_POWERS[k..])
    decreases 8 - k
  {
    hide Step, Xor;
    if k < 8 {
      MixedSteps(index / 2, k + 1);
      assert TABLE_OF_POWERS[k..][1..] == TABLE_OF_POWERS[k + 1..];
      XorOneDigit(0, index % 2, index / 2, 0);
      XorZero(index / 2);
      StepsAreLinear(index % 2, 2 * (index / 2), 8 - k);
      EvenStep(2 * (index / 2));
      StepsOfZero(8 - k);
      PowerEntry(k);
    }
  }

  /** All entries of the table are those of section 8 of RFC 1952. */
  lemma {:induction false} TableIsStandard(index: byte)
    ensures TableEntry(index, 8) == MixedEntry(index, TABLE_OF_POWERS)
  {
    hide Steps, Xor;
    PowersOfBytes();
    MixedSteps(index, 0);
    assert TABLE_OF_POWERS[0..] == TABLE_OF_POWERS;
  }

  // ---- Error detection ----

  lemma {:induction false} AbsorbConcat(c: nat, a: seq<byte>, b: seq<byte>, n: nat)
    ensures AbsorbAll(c, a + b, n) == AbsorbAll(AbsorbAll(c, a, n), b, n)
  {
    if b == [] {
      assert a + b == a;
    } else {
      AbsorbConcat(c, a, b[..|b| - 1], n);
      assert (a + b)[..|a + b| - 1] == a + b[..|b| - 1];
    }
  }

  /** Registers that differ still differ after the same bytes. */
  lemma {:induction false} AbsorbingKeepsDifference(c: nat, d: nat, data: seq<byte>, n: nat)
    requires c <= ALL_ONES && d <= ALL_ONES && c != d
    ensures AbsorbAll(c, data, n) != AbsorbAll(d, data, n)
  {
    if data != [] {
      var init, last := data[..|data| - 1], data[|data| - 1];
      AbsorbingKeepsDifference(c, d, init, n);
      var x, y := AbsorbAll(c, init, n), AbsorbAll(d, init, n);
      AbsorbAllFits(c, init, n);
      AbsorbAllFits(d, init, n);
      MixFits(x, last);
      MixFits(y, last);
      StepsAreInjective(Xor(x, last), Xor(y, last), n);
      XorIsInjective(x, y, last);
    }
  }

  /** A window of `n`-bit digits read as one number, first digit lowest, and its width in bits. */
  function Pack(window: seq<byte>, n: nat): nat {
    if window == [] then 0 else window[0] + Shl(Pack(window[1..], n), n)
  }

  function Width(window: seq<byte>, n: nat): nat {
    if window == [] then 0 else n + Width(window[1..], n)
  }

  lemma {:induction false} PackIsInjective(v: seq<byte>, w: seq<byte>, n: nat)
    requires |v| == |w| && 0x100 <= Power(n)
    ensures Pack(v, n) == Pack(w, n) ==> v == w
  {
    if v != [] {
      PackIsInjective(v[1..], w[1..], n);
      DigitsOfSum(v[0], Pack(v[1..], n), n);
      DigitsOfSum(w[0], Pack(w[1..], n), n);
      assert v == [v[0]] + v[1..] && w == [w[0]] + w[1..];
    }
  }

  lemma {:induction false} SumFits(low: nat, high: nat, n: nat, k: nat)
    requires low < Power(n) && high < Power(k)
    ensures low + Shl(high, n) < Power(n + k)
  {
    if n > 0 {
      SumFits(low / 2, high, n - 1, k);
    }
  }

  lemma {:induction false} PackFits(window: seq<byte>, n: nat)
    requires 0x100 <= Power(n)
    ensures Pack(window, n) < Power(Width(window, n))
  {
    if window != [] {
      PackFits(window[1..], n);
      SumFits(window[0], Pack(window[1..], n), n, Width(window[1..], n));
    }
  }

  lemma {:induction false} ByteWidth(window: seq<byte>, k: nat)
    requires |window| <= k
    ensures Width(window, 8) <= 8 * k
  {
    if window != [] {
      ByteWidth(window[1..], k - 1);
    }
  }

  lemma {:induction false} SameWidth(v: seq<byte>, w: seq<byte>, n: nat)
    requires |v| == |w|
    ensures Width(v, n) == Width(w, n)
  {
    if v != [] {
      SameWidth(v[1..], w[1..], n);
    }
  }

  /** A pattern mixed in above the low digits comes down unchanged once those are consumed. */
  lemma MixAbove(c: nat, w: nat, above: nat, n: nat)
    requires w < Power(n)
    ensures Steps(Xor(c, w + Shl(above, n)), n) == Xor(Steps(Xor(c, w), n), above)
  {
    hide Xor, Steps, Shl, Power;
    XorAdds(w, above, n);
    XorAssociates(c, w, Shl(above, n));
    StepsAreLinear(Xor(c, w), Shl(above, n), n);
    StepsShift(above, n);
  }

  lemma {:induction false} AbsorbOne(c: nat, w: byte, n: nat)
    ensures AbsorbAll(c, [w], n) == Absorb(c, w, n)
  {
    assert [w][..0] == [];
  }

  /** Absorbing a window is one mix of its packed bytes, then all its steps. */
  lemma {:induction false} WindowIsOneMix(c: nat, window: seq<byte>, n: nat)
    requires 0x100 <= Power(n)
    ensures AbsorbAll(c, window, n) == Steps(Xor(c, Pack(window, n)), Width(window, n))
    decreases |window|
  {
    hide Xor, Step, Shl, Power;
    if window == [] {
      XorZero(c);
    } else {
      var w, rest := window[0], window[1..];
      assert window == [w] + rest;
      AbsorbConcat(c, [w], rest, n);
      AbsorbOne(c, w, n);
      WindowIsOneMix(Absorb(c, w, n), rest, n);
      MixAbove(c, w, Pack(rest, n), n);
      StepsCompose(Xor(c, Pack(window, n)), n, Width(rest, n));
    }
  }

  lemma {:induction false} WindowsDiffer(c: nat, v: seq<byte>, w: seq<byte>, n: nat)
    requires c <= ALL_ONES && |v| == |w| && v != w
    requires 0x100 <= Power(n) && Width(v, n) <= 32
    ensures AbsorbAll(c, v, n) != AbsorbAll(c, w, n)
  {
    WindowIsOneMix(c, v, n);
    WindowIsOneMix(c, w, n);
    PackIsInjective(v, w, n);
    PackFits(v, n);
    PackFits(w, n);
    PowersOfBytes();
    SameWidth(v, w, n);
    PowerIsMonotone(Width(v, n), 32);
    MixFits(c, Pack(v, n));
    MixFits(c, Pack(w, n));
    StepsAreInjective(Xor(c, Pack(v, n)), Xor(c, Pack(w, n)), Width(v, n));
    XorCommutes(c, Pack(v, n));
    XorCommutes(c, Pack(w, n));
    XorIsInjective(Pack(v, n), Pack(w, n), c);
  }

  lemma {:induction false} RegistersDiffer(before: seq<byte>, v: seq<byte>, w: seq<byte>, after: seq<byte>, n: nat)
    requires |v| == |w| && v != w
    requires 0x100 <= Power(n) && Width(v, n) <= 32
    ensures AbsorbAll(ALL_ONES, before + v + after, n) != AbsorbAll(ALL_ONES, before + w + after, n)
  {
    var c := AbsorbAll(ALL_ONES, before, n);
    AbsorbAllFits(ALL_ONES, before, n);
    WindowsDiffer(c, v, w, n);
    AbsorbAllFits(c, v, n);
    AbsorbAllFits(c, w, n);
    AbsorbingKeepsDifference(AbsorbAll(c, v, n), AbsorbAll(c, w, n), after, n);
    AbsorbConcat(ALL_ONES, before, v, n);
    AbsorbConcat(ALL_ONES, before, w, n);
    AbsorbConcat(ALL_ONES, before + v, after, n);
    AbsorbConcat(ALL_ONES, before + w, after, n);
  }

  /**
   Any change confined to four consecutive bytes changes the checksum. A single changed byte is
   the window of length one.
   */
  lemma BurstChangesChecksum(before: seq<byte>, v: seq<byte>, w: seq<byte>, after: seq<byte>)
    requires |v| == |w| <= 4 && v != w
    ensures Checksum(before + v + after) != Checksum(before + w + after)
  {
    PowersOfBytes();
    ByteWidth(v, 4);
    RegistersDiffer(before, v, w, after, 8);
    XorIsInjective(AbsorbAll(ALL_ONES, before + v + after, 8), AbsorbAll(ALL_ONES, before + w + after, 8), ALL_ONES);
  }

  lemma {:induction false} PowerIsMonotone(j: nat, k: nat)
    requires j <= k
    ensures Power(j) <= Power(k)
    decreases k - j
  {
    if j < k {
      PowerIsMonotone(j + 1, k);
    }
  }

  // ---- The checksum of a file with its own checksum ----

  /** A number below 2^32 as four bytes, lowest first. */
  function FourBytes(x: nat): seq<byte>
    requires x <= ALL_ONES
  {
    [x % 0x100, x / 0x100 % 0x100, x / 0x1_0000 % 0x100, x / 0x100_0000]
  }

  lemma {:induction false} PackOneMore(w: byte, rest: seq<byte>, n: nat)
    requires Power(n) == 0x100
    ensures Pack([w] + rest, n) == w + 0x100 * Pack(rest, n) && Width([w] + rest, n) == n + Width(rest, n)
  {
    assert ([w] + rest)[1..] == rest;
    ShlMultiplies(Pack(rest, n), n);
    hide Power, Shl;
  }

  lemma BytesAddUp(x: nat)
    requires x <= ALL_ONES
    ensures x == x % 0x100 + 0x100 * (x / 0x100 % 0x100 + 0x100 * (x / 0x1_0000 % 0x100 + 0x100 * (x / 0x100_0000)))
  {
    var h := x / 0x100;
    assert x / 0x1_0000 == h / 0x100;
    assert x / 0x100_0000 == h / 0x100 / 0x100;
  }

  lemma {:induction false} PackOfFourBytes(x: nat, n: nat)
    requires x <= ALL_ONES && Power(n) == 0x100
    ensures Pack(FourBytes(x), n) == x && Width(FourBytes(x), n) == 4 * n
  {
    hide Pack, Width, Power;
    BytesAddUp(x);
    PackFour(x % 0x100, x / 0x100 % 0x100, x / 0x1_0000 % 0x100, x / 0x100_0000, n);
  }

  lemma {:induction false} PackFour(a: byte, b: byte, c: byte, d: byte, n: nat)
    requires Power(n) == 0x100
    ensures Pack([a, b, c, d], n) == a + 0x100 * (b + 0x100 * (c + 0x100 * d)) && Width([a, b, c, d], n) == 4 * n
  {
    hide Pack, Width, Power;
    PackOfNone(n);
    PackOneMore(d, [], n);
    PackOneMore(c, [d], n);
    PackOneMore(b, [c, d], n);
    PackOneMore(a, [b, c, d], n);
    assert [d] + [] == [d] && [c] + [d] == [c, d];
    assert [b] + [c, d] == [b, c, d] && [a] + [b, c, d] == [a, b, c, d];
  }

  lemma {:induction false} PackOfNone(n: nat)
    ensures Pack([], n) == 0 && Width([], n) == 0
  {
  }

  lemma {:induction false} ResidueOfRegister(data: seq<byte>, n: nat)
    requires Power(n) == 0x100
    ensures var r := AbsorbAll(ALL_ONES, data, n);
      && Xor(r, ALL_ONES) <= ALL_ONES
      && AbsorbAll(ALL_ONES, data + FourBytes(Xor(r, ALL_ONES)), n) == Steps(ALL_ONES, 4 * n)
  {
    hide Xor, Steps, FourBytes;
    var r := AbsorbAll(ALL_ONES, data, n);
    AbsorbAllFits(ALL_ONES, data, n);
    MixFits(r, ALL_ONES);
    var sum := Xor(r, ALL_ONES);
    AbsorbConcat(ALL_ONES, data, FourBytes(sum), n);
    WindowIsOneMix(r, FourBytes(sum), n);
    PackOfFourBytes(sum, n);
    XorCommutes(r, ALL_ONES);
    XorCancels(ALL_ONES, 0, r);
    XorCommutes(r, sum);
  }

  /** A file followed by its own checksum has the same checksum as four zero bytes, whatever the file. */
  lemma ResidueIsConstant(data: seq<byte>)
    ensures Checksum(data) <= ALL_ONES
    ensures Checksum(data + FourBytes(Checksum(data))) == Checksum([0, 0, 0, 0])
  {
    hide Xor, Steps, AbsorbAll;
    PowersOfBytes();
    ResidueOfRegister(data, 8);
    ResidueOfRegister([], 8);
    ChecksumOfNothing();
    assert [] + FourBytes(0) == [0, 0, 0, 0];
  }

  lemma ChecksumOfNothing()
    ensures Checksum([]) == 0
  {
    XorZero(ALL_ONES);
  }

  /** The register starts with all ones, so four bytes of ones clear it; inverted, it has all ones again. */
  lemma ChecksumOfOnes()
    ensures Checksum([0xff, 0xff, 0xff, 0xff]) == 0xffff_ffff
  {
    hide Xor, Steps, AbsorbAll, FourBytes, Pack;
    PowersOfBytes();
    PackFour(0xff, 0xff, 0xff, 0xff, 8);
    WindowIsOneMix(ALL_ONES, [0xff, 0xff, 0xff, 0xff], 8);
    XorZero(ALL_ONES);
    StepsOfZero(32);
  }
}
