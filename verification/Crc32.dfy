/**
 * CRC-32 (src/lib/crc32.ts): the table-driven loop against the bit-at-a-time register of section 8
 * of RFC 1952, what the checksum catches, and its eight hexadecimal digits. Registers are the
 * unsigned 32-bit numbers of the source's `>>> 0`.
 */
module Crc32 {
  import opened Bytes

  const WORDS: nat := 0x1_0000_0000
  const POLY: nat := 0xEDB8_8320
  const ONES: nat := 0xFFFF_FFFF

  type word = w: int | 0 <= w < WORDS witness 0

  // ---- Exclusive-or, bit by bit ----

  function Xor(a: nat, b: nat): nat
    decreases a + b
  {
    if a == 0 then b
    else if b == 0 then a
    else (if a % 2 == b % 2 then 0 else 1) + 2 * Xor(a / 2, b / 2)
  }

  lemma XorHalves(a: nat, b: nat)
    ensures Xor(a, b) / 2 == Xor(a / 2, b / 2)
    ensures Xor(a, b) % 2 == if a % 2 == b % 2 then 0 else 1
  {
  }

  lemma {:induction false} XorCommutes(a: nat, b: nat)
    ensures Xor(a, b) == Xor(b, a)
    decreases a + b
  {
    if a != 0 && b != 0 { XorCommutes(a / 2, b / 2); }
  }

  lemma {:induction false} XorAssociates(a: nat, b: nat, c: nat)
    ensures Xor(Xor(a, b), c) == Xor(a, Xor(b, c))
    decreases a + b + c
  {
    if a != 0 && b != 0 && c != 0 {
      XorHalves(a, b);
      XorHalves(b, c);
      XorAssociates(a / 2, b / 2, c / 2);
      XorHalves(Xor(a, b), c);
      XorHalves(a, Xor(b, c));
    }
  }

  lemma XorSwaps(a: nat, b: nat, p: nat, q: nat)
    ensures Xor(Xor(a, b), Xor(p, q)) == Xor(Xor(a, p), Xor(b, q))
  {
    XorAssociates(a, b, Xor(p, q));
    XorAssociates(b, p, q);
    XorCommutes(b, p);
    XorAssociates(p, b, q);
    XorAssociates(a, p, Xor(b, q));
  }

  lemma {:induction false} XorSelf(a: nat)
    ensures Xor(a, a) == 0
  {
    if a != 0 { XorSelf(a / 2); }
  }

  function Pow2(n: nat): (r: nat)
    ensures r > 0
  {
    if n == 0 then 1 else 2 * Pow2(n - 1)
  }

  /** c >>> n. */
  function Shr(c: nat, n: nat): nat
    decreases n, c
  {
    if n == 0 then c else Shr(c / 2, n - 1)
  }

  lemma {:induction false} XorShifts(a: nat, b: nat, n: nat)
    ensures Shr(Xor(a, b), n) == Xor(Shr(a, n), Shr(b, n))
    decreases n
  {
    if n > 0 {
      XorHalves(a, b);
      XorShifts(a / 2, b / 2, n - 1);
    }
  }

  lemma XorEven(a: nat, c: nat)
    ensures Xor(a, 2 * c) == a % 2 + 2 * Xor(a / 2, c)
  {
  }

  /** Bits that do not overlap add up. */
  lemma {:induction false} XorDisjoint(a: nat, b: nat, n: nat)
    requires a < Pow2(n)
    ensures Xor(a, Pow2(n) * b) == a + Pow2(n) * b
  {
    if n > 0 {
      var c := Pow2(n - 1) * b;
      assert Pow2(n) * b == 2 * c;
      XorEven(a, c);
      XorDisjoint(a / 2, b, n - 1);
    }
  }

  // ---- The definition: one message bit at a time, least significant first ----

  /** The powers of x below 32 in the polynomial of RFC 1952. */
  const POWERS: seq<nat> := [26, 23, 22, 16, 12, 11, 10, 8, 7, 5, 4, 2, 1, 0]

  /** The first n of them as bits, the highest power lowest. */
  function Reflected(powers: seq<nat>, n: nat): nat
    requires n <= |powers| && forall k :: 0 <= k < |powers| ==> powers[k] < 32
    decreases n, powers
  {
    if n == 0 then 0 else Reflected(powers, n - 1) + Pow2(31 - powers[n - 1])
  }

  lemma PowersOfTwo()
    ensures Pow2(5) == 0x20 && Pow2(8) == 0x100 && Pow2(9) == 0x200 && Pow2(15) == 0x8000 && Pow2(19) == 0x8_0000
    ensures Pow2(20) == 0x10_0000 && Pow2(21) == 0x20_0000 && Pow2(23) == 0x80_0000 && Pow2(24) == 0x100_0000
    ensures Pow2(26) == 0x400_0000 && Pow2(27) == 0x800_0000 && Pow2(29) == 0x2000_0000
    ensures Pow2(30) == 0x4000_0000 && Pow2(31) == 0x8000_0000
  {
  }

  /** The polynomial is that of RFC 1952, reflected. */
  lemma PolynomialIs()
    ensures POLY == Reflected(POWERS, 14)
  {
    PowersOfTwo();
    var p := POWERS;
    assert Reflected(p, 4) == 0x20 + 0x100 + 0x200 + 0x8000;
    assert Reflected(p, 8) == Reflected(p, 4) + 0x8_0000 + 0x10_0000 + 0x20_0000 + 0x80_0000;
    assert Reflected(p, 12) == Reflected(p, 8) + 0x100_0000 + 0x400_0000 + 0x800_0000 + 0x2000_0000;
  }

  /** What a register's low bit feeds back when it falls out. */
  function Feedback(low: nat): nat {
    if low == 1 then POLY else 0
  }

  /** The register takes in one bit of the message. */
  function FeedBit(c: nat, bit: nat): nat {
    Xor(c / 2, Feedback(Xor(c % 2, bit)))
  }

  function FeedBits(c: nat, x: nat, n: nat): nat
    decreases n, c
  {
    if n == 0 then c else FeedBits(FeedBit(c, x % 2), x / 2, n - 1)
  }

  /** And a byte, which is eight. */
  function FeedByte(c: nat, b: byte): nat {
    FeedBits(c, b, 8)
  }

  /** The register after the first n bytes. */
  function Register(s: seq<byte>, n: nat, c: nat): nat
    requires n <= |s|
    decreases n
  {
    if n == 0 then c else FeedByte(Register(s, n - 1, c), s[n - 1])
  }

  /** The CRC-32 of a byte sequence. */
  function Crc(s: seq<byte>): nat {
    Xor(Register(s, |s|, ONES), ONES)
  }

  // ---- Steps of the register with no message, which is what the table holds ----

  function Step(c: nat): nat {
    Xor(c / 2, Feedback(c % 2))
  }

  function Steps(c: nat, n: nat): nat
    decreases n, c
  {
    if n == 0 then c else Steps(Step(c), n - 1)
  }

  lemma StepIsLinear(x: nat, y: nat)
    ensures Step(Xor(x, y)) == Xor(Step(x), Step(y))
  {
    XorHalves(x, y);
    XorSwaps(x / 2, y / 2, Feedback(x % 2), Feedback(y % 2));
    XorSelf(POLY);
  }

  lemma {:induction false} StepsAreLinear(x: nat, y: nat, n: nat)
    ensures Steps(Xor(x, y), n) == Xor(Steps(x, n), Steps(y, n))
    decreases n
  {
    if n > 0 {
      var p, q := Step(x), Step(y);
      assert Step(Xor(x, y)) == Xor(p, q) by { StepIsLinear(x, y); }
      StepsAreLinear(p, q, n - 1);
    }
  }

  lemma {:induction false} StepsAdd(x: nat, m: nat, n: nat)
    ensures Steps(x, m + n) == Steps(Steps(x, m), n)
    decreases m
  {
    if m > 0 { StepsAdd(Step(x), m - 1, n); }
  }

  /** Steps only shift a register whose low bits are zero. */
  lemma {:induction false} ZerosShiftOut(y: nat, n: nat)
    ensures Steps(Pow2(n) * y, n) == y
    decreases n
  {
    if n > 0 {
      var x := Pow2(n) * y;
      assert x == 2 * (Pow2(n - 1) * y);
      assert Xor(x / 2, 0) == x / 2;
      ZerosShiftOut(y, n - 1);
    }
  }

  lemma FeedIsStep(c: nat, x: nat)
    ensures Step(Xor(c, x)) == Xor(FeedBit(c, x % 2), x / 2)
  {
    XorHalves(c, x);
    var f := Feedback(Xor(c % 2, x % 2));
    XorAssociates(c / 2, x / 2, f);
    XorCommutes(x / 2, f);
    XorAssociates(c / 2, f, x / 2);
  }

  /** The message bits may all be put in the register first. */
  lemma {:induction false} FeedIsSteps(c: nat, x: nat, n: nat)
    requires x < Pow2(n)
    ensures FeedBits(c, x, n) == Steps(Xor(c, x), n)
    decreases n
  {
    if n == 0 {
      assert Xor(c, 0) == c;
    } else {
      FeedIsStep(c, x);
      FeedIsSteps(FeedBit(c, x % 2), x / 2, n - 1);
    }
  }

  lemma Quarter(c: nat)
    ensures c / 2 / 2 == c / 4 && c / 4 / 2 == c / 8 && Shr(c, 2) == c / 4
  {
    assert Shr(c, 2) == Shr(c / 2, 1) == Shr(c / 2 / 2, 0);
  }

  lemma Eight(c: nat)
    ensures Pow2(8) == 256 && Shr(c, 8) == c / 256
  {
    assert Pow2(4) == 16;
    Quarter(c);
    Quarter(c / 4);
    Quarter(c / 16);
    Quarter(c / 64);
    assert Shr(c, 8) == Shr(c / 2, 7) == Shr(c / 4, 6) == Shr(c / 8, 5) == Shr(c / 16, 4);
    assert Shr(c / 16, 4) == Shr(c / 32, 3) == Shr(c / 64, 2);
  }

  lemma FedIsSteps(c: nat, b: byte)
    ensures FeedByte(c, b) == Steps(Xor(c, b), 8)
  {
    Eight(b);
    FeedIsSteps(c, b, 8);
  }

  // ---- The table and the loop over it ----

  function Entry(x: byte): nat {
    Steps(x, 8)
  }

  /** A register's high bits are shifted down; only its low ones feed back. */
  lemma StepsSplit(low: nat, high: nat, n: nat)
    requires low < Pow2(n)
    ensures Steps(low + Pow2(n) * high, n) == Xor(Steps(low, n), high)
  {
    XorDisjoint(low, high, n);
    StepsAreLinear(low, Pow2(n) * high, n);
    ZerosShiftOut(high, n);
  }

  lemma ByteBelow(c: nat, b: byte)
    ensures Xor(c, b) / 256 == c / 256
  {
    Eight(c);
    Eight(b);
    Eight(Xor(c, b));
    XorShifts(c, b, 8);
  }

  lemma StepsOf(z: nat, low: nat, high: nat, n: nat)
    requires low < Pow2(n) && z == low + Pow2(n) * high
    ensures Steps(z, n) == Xor(Steps(low, n), high)
  {
    StepsSplit(low, high, n);
  }

  /** Eight steps look up the low byte and shift the rest. */
  lemma StepsLookUp(z: nat)
    ensures Steps(z, 8) == Xor(Entry(z % 256), z / 256)
  {
    var low, high := z % 256, z / 256;
    assert Pow2(8) == 256 by { Eight(0); }
    StepsOf(z, low, high, 8);
  }

  /** One lookup does what feeding eight bits does. */
  lemma LookupFeedsByte(c: nat, b: byte)
    ensures FeedByte(c, b) == Xor(Entry(Xor(c, b) % 256), c / 256)
  {
    FedIsSteps(c, b);
    StepsLookUp(Xor(c, b));
    ByteBelow(c, b);
  }

  // ---- What it catches ----

  lemma {:induction false} XorBounded(a: nat, b: nat, n: nat)
    requires a < Pow2(n) && b < Pow2(n)
    ensures Xor(a, b) < Pow2(n)
  {
    if n > 0 && a != 0 && b != 0 { XorBounded(a / 2, b / 2, n - 1); }
  }

  lemma XorCancels(a: nat, b: nat)
    ensures Xor(a, Xor(a, b)) == b
  {
    XorAssociates(a, a, b);
    XorSelf(a);
  }

  lemma {:induction false} XorZero(a: nat, b: nat)
    ensures Xor(a, b) == 0 <==> a == b
    decreases a + b
  {
    if a != 0 && b != 0 {
      XorHalves(a, b);
      XorZero(a / 2, b / 2);
    }
  }

  /** The polynomial has its top bit, so a step of a register is zero only of zero. */
  lemma StepLosesNothing(c: nat)
    requires c < WORDS && Step(c) == 0
    ensures c == 0
  {
    XorZero(c / 2, Feedback(c % 2));
  }

  lemma StepBounded(c: nat)
    requires c < WORDS
    ensures Step(c) < WORDS
  {
    Thirty2();
    XorBounded(c / 2, Feedback(c % 2), 32);
  }

  lemma Thirty2()
    ensures Pow2(32) == WORDS
  {
    assert Pow2(8) == 256;
    assert Pow2(16) == 65536;
    assert Pow2(24) == 0x100_0000;
  }

  lemma {:induction false} StepsLoseNothing(c: nat, n: nat)
    requires c < WORDS && Steps(c, n) == 0
    ensures c == 0
    decreases n
  {
    if n > 0 {
      StepBounded(c);
      StepsLoseNothing(Step(c), n - 1);
      StepLosesNothing(c);
    }
  }

  /** Where two registers `d` apart are after bytes `x` apart. */
  function Drifted(d: nat, x: nat): nat {
    Steps(Xor(d, x), 8)
  }

  /** Two registers fed different bytes drift apart as the difference is fed. */
  lemma Drift(c: nat, d: nat, x: byte, y: byte)
    ensures Xor(FeedByte(c, x), FeedByte(d, y)) == Drifted(Xor(c, d), Xor(x, y))
  {
    FedIsSteps(c, x);
    FedIsSteps(d, y);
    StepsAreLinear(Xor(c, x), Xor(d, y), 8);
    XorSwaps(c, x, d, y);
  }

  /** How far apart the registers of two messages are after n bytes. */
  function Apart(s: seq<byte>, t: seq<byte>, n: nat): nat
    requires n <= |s| && n <= |t|
  {
    if n == 0 then 0 else Drifted(Apart(s, t, n - 1), Xor(s[n - 1], t[n - 1]))
  }

  lemma {:induction false} ApartIs(s: seq<byte>, t: seq<byte>, n: nat, c: nat)
    requires n <= |s| && n <= |t|
    ensures Xor(Register(s, n, c), Register(t, n, c)) == Apart(s, t, n)
  {
    if n == 0 {
      XorSelf(c);
    } else {
      var a, b, d := Register(s, n - 1, c), Register(t, n - 1, c), Apart(s, t, n - 1);
      assert Xor(a, b) == d by { ApartIs(s, t, n - 1, c); }
      assert Xor(FeedByte(a, s[n - 1]), FeedByte(b, t[n - 1])) == Drifted(d, Xor(s[n - 1], t[n - 1])) by {
        Drift(a, b, s[n - 1], t[n - 1]);
      }
    }
  }

  /** Where the messages differ, over m bytes from k on, as one number. */
  function Differences(s: seq<byte>, t: seq<byte>, k: nat, m: nat): nat
    requires k + m <= |s| && k + m <= |t|
    decreases m
  {
    if m == 0 then 0 else Xor(s[k], t[k]) + 256 * Differences(s, t, k + 1, m - 1)
  }

  lemma XorOfBytes(x: byte, y: byte)
    ensures Xor(x, y) < 256
  {
    assert Pow2(8) == 256 by { Eight(0); }
    XorBounded(x, y, 8);
  }

  lemma FedApart(d: nat, x: nat, rest: nat, n: nat)
    requires x < Pow2(n)
    ensures Xor(d, x + Pow2(n) * rest) == Xor(Xor(d, x), Pow2(n) * rest)
  {
    XorDisjoint(x, rest, n);
    XorAssociates(d, x, Pow2(n) * rest);
  }

  lemma StepsApart(low: nat, rest: nat, n: nat)
    ensures Steps(Xor(low, Pow2(n) * rest), n) == Xor(Steps(low, n), rest)
  {
    StepsAreLinear(low, Pow2(n) * rest, n);
    ZerosShiftOut(rest, n);
  }

  lemma FedThrough(d: nat, x: nat, rest: nat, n: nat)
    requires x < Pow2(n)
    ensures Steps(Xor(d, x + Pow2(n) * rest), n) == Xor(Steps(Xor(d, x), n), rest)
  {
    FedApart(d, x, rest, n);
    StepsApart(Xor(d, x), rest, n);
  }

  lemma StepsOn(all: nat, after: nat, n: nat, more: nat)
    requires Steps(all, n) == after
    ensures Steps(all, n + more) == Steps(after, more)
  {
    StepsAdd(all, n, more);
  }

  lemma FirstByteFed(d: nat, x: nat, rest: nat, more: nat)
    requires x < 256
    ensures Steps(Xor(d, x + 256 * rest), 8 + more) == Steps(Xor(Drifted(d, x), rest), more)
  {
    assert Pow2(8) == 256 by { Eight(0); }
    FedThrough(d, x, rest, 8);
    StepsOn(Xor(d, x + 256 * rest), Xor(Drifted(d, x), rest), 8, more);
  }

  /** The drift over m bytes, from registers `d` apart. */
  function FeedDifferences(s: seq<byte>, t: seq<byte>, k: nat, m: nat, d: nat): nat
    requires k + m <= |s| && k + m <= |t|
    decreases m
  {
    if m == 0 then d else FeedDifferences(s, t, k + 1, m - 1, Drifted(d, Xor(s[k], t[k])))
  }

  lemma {:induction false} ApartFeeds(s: seq<byte>, t: seq<byte>, k: nat, m: nat)
    requires k + m <= |s| && k + m <= |t|
    ensures Apart(s, t, k + m) == FeedDifferences(s, t, k, m, Apart(s, t, k))
    decreases m
  {
    if m > 0 {
      ApartFeeds(s, t, k + 1, m - 1);
      assert Apart(s, t, k + 1) == Drifted(Apart(s, t, k), Xor(s[k], t[k]));
    }
  }

  lemma {:induction false} DifferencesFed(s: seq<byte>, t: seq<byte>, k: nat, m: nat, d: nat)
    requires k + m <= |s| && k + m <= |t|
    ensures FeedDifferences(s, t, k, m, d) == Steps(Xor(d, Differences(s, t, k, m)), 8 * m)
    decreases m
  {
    if m == 0 {
      XorNothing(d);
    } else {
      var x, rest, more := Xor(s[k], t[k]), Differences(s, t, k + 1, m - 1), 8 * (m - 1);
      assert FeedDifferences(s, t, k, m, d) == Steps(Xor(Drifted(d, x), rest), more) by {
        DifferencesFed(s, t, k + 1, m - 1, Drifted(d, x));
      }
      assert Steps(Xor(d, x + 256 * rest), 8 + more) == Steps(Xor(Drifted(d, x), rest), more) by {
        XorOfBytes(s[k], t[k]);
        FirstByteFed(d, x, rest, more);
      }
      assert Differences(s, t, k, m) == x + 256 * rest;
    }
  }

  lemma XorNothing(d: nat)
    ensures Xor(d, 0) == d && Xor(0, d) == d
  {
  }

  lemma {:induction false} DifferentBytesFed(s: seq<byte>, t: seq<byte>, k: nat, m: nat, i: nat)
    requires k + m <= |s| && k + m <= |t| && k <= i < k + m && s[i] != t[i]
    ensures Differences(s, t, k, m) > 0
    decreases m
  {
    XorZero(s[k], t[k]);
    if i > k { DifferentBytesFed(s, t, k + 1, m - 1, i); }
  }

  lemma {:induction false} FourBytes(s: seq<byte>, t: seq<byte>, k: nat, m: nat)
    requires k + m <= |s| && k + m <= |t| && m <= 4
    ensures Differences(s, t, k, m)
          < match m case 0 => 1 case 1 => 0x100 case 2 => 0x1_0000 case 3 => 0x100_0000 case _ => WORDS
    decreases m
  {
    if m > 0 {
      XorOfBytes(s[k], t[k]);
      FourBytes(s, t, k + 1, m - 1);
    }
  }

  lemma {:induction false} StepsBounded(c: nat, n: nat)
    requires c < WORDS
    ensures Steps(c, n) < WORDS
    decreases n
  {
    if n > 0 {
      StepBounded(c);
      StepsBounded(Step(c), n - 1);
    }
  }

  lemma ApartStep(d: nat, x: byte)
    ensures Drifted(d, Xor(x, x)) == Steps(d, 8)
  {
    XorSelf(x);
    XorNothing(d);
  }

  /** Registers that have not drifted apart do not while the messages agree, */
  lemma {:induction false} StaysTogether(s: seq<byte>, t: seq<byte>, n: nat)
    requires n <= |s| && n <= |t| && forall i :: 0 <= i < n ==> s[i] == t[i]
    ensures Apart(s, t, n) == 0
  {
    if n > 0 {
      StaysTogether(s, t, n - 1);
      ApartStep(0, s[n - 1]);
      ZeroSteps(8);
    }
  }

  lemma {:induction false} ZeroSteps(n: nat)
    ensures Steps(0, n) == 0
    decreases n
  {
    if n > 0 {
      assert Step(0) == 0;
      ZeroSteps(n - 1);
    }
  }

  lemma {:induction false} ApartBounded(s: seq<byte>, t: seq<byte>, n: nat)
    requires n <= |s| && n <= |t|
    ensures Apart(s, t, n) < WORDS
  {
    if n > 0 {
      var d, x := Apart(s, t, n - 1), Xor(s[n - 1], t[n - 1]);
      ApartBounded(s, t, n - 1);
      XorOfBytes(s[n - 1], t[n - 1]);
      Thirty2();
      XorBounded(d, x, 32);
      StepsBounded(Xor(d, x), 8);
    }
  }

  /** and those that have stay apart. */
  lemma {:induction false} StaysApart(s: seq<byte>, t: seq<byte>, k: nat, n: nat)
    requires k <= n <= |s| && n <= |t| && forall i :: k <= i < n ==> s[i] == t[i]
    requires Apart(s, t, k) != 0
    ensures Apart(s, t, n) != 0
    decreases n
  {
    if n > k {
      var d := Apart(s, t, n - 1);
      StaysApart(s, t, k, n - 1);
      ApartBounded(s, t, n - 1);
      ApartStep(d, s[n - 1]);
      LosesNothing(d, 8);
    }
  }

  lemma LosesNothing(c: nat, n: nat)
    requires 0 < c < WORDS
    ensures Steps(c, n) != 0
  {
    if Steps(c, n) == 0 { StepsLoseNothing(c, n); }
  }

  lemma WindowSetsApart(s: seq<byte>, t: seq<byte>, k: nat, m: nat, i: nat)
    requires k + m <= |s| && k + m <= |t| && m <= 4 && k <= i < k + m && s[i] != t[i]
    requires Apart(s, t, k) == 0
    ensures Apart(s, t, k + m) != 0
  {
    var d := Differences(s, t, k, m);
    ApartFeeds(s, t, k, m);
    DifferencesFed(s, t, k, m, 0);
    XorNothing(d);
    DifferentBytesFed(s, t, k, m, i);
    FourBytes(s, t, k, m);
    LosesNothing(d, 8 * m);
  }

  lemma SameCrc(s: seq<byte>, t: seq<byte>)
    requires |s| == |t| && Crc(s) == Crc(t)
    ensures Apart(s, t, |s|) == 0
  {
    var r, q := Register(s, |s|, ONES), Register(t, |t|, ONES);
    XorCommutes(r, ONES);
    XorCommutes(q, ONES);
    XorCancels(ONES, r);
    XorCancels(ONES, q);
    XorSelf(r);
    ApartIs(s, t, |s|, ONES);
  }

  lemma FeedBounded(c: nat, x: byte)
    requires c < WORDS
    ensures FeedByte(c, x) < WORDS
  {
    FedIsSteps(c, x);
    assert Xor(c, x) < WORDS by {
      Thirty2();
      XorBounded(c, x, 32);
    }
    StepsBounded(Xor(c, x), 8);
  }

  lemma {:induction false} RegisterBounded(s: seq<byte>, n: nat)
    requires n <= |s|
    ensures Register(s, n, ONES) < WORDS
    decreases n
  {
    if n > 0 {
      RegisterBounded(s, n - 1);
      FeedBounded(Register(s, n - 1, ONES), s[n - 1]);
    }
  }

  lemma CrcBounded(s: seq<byte>)
    ensures Crc(s) < WORDS
  {
    RegisterBounded(s, |s|);
    Thirty2();
    XorBounded(Register(s, |s|, ONES), ONES, 32);
  }

  lemma DamageSetsApart(s: seq<byte>, t: seq<byte>, k: nat, i: nat)
    requires |s| == |t| && i < |s| && s[i] != t[i]
    requires forall j :: 0 <= j < |s| && s[j] != t[j] ==> k <= j < k + 4
    ensures Apart(s, t, |s|) != 0
  {
    var m := if k + 4 <= |s| then 4 else |s| - k;
    StaysTogether(s, t, k);
    WindowSetsApart(s, t, k, m, i);
    StaysApart(s, t, k + m, |s|);
  }

  /** Damage within four bytes never goes unnoticed: such copies have the same CRC only if they are equal. */
  lemma DamageNoticed(s: seq<byte>, t: seq<byte>, k: nat)
    requires |s| == |t| && forall i :: 0 <= i < |s| && s[i] != t[i] ==> k <= i < k + 4
    ensures Crc(s) == Crc(t) <==> s == t
  {
    if i :| 0 <= i < |s| && s[i] != t[i] && Crc(s) == Crc(t) {
      DamageSetsApart(s, t, k, i);
      SameCrc(s, t);
      assert false;
    }
  }

  // ---- The code ----

  lemma StepOnce(c: nat, n: nat)
    requires n > 0
    ensures Steps(c, n) == Steps(if c % 2 == 1 then Xor(POLY, c / 2) else c / 2, n - 1)
  {
    XorCommutes(POLY, c / 2);
    XorNothing(c / 2);
  }

  /** One entry: eight steps of a register that holds its index. */
  method MakeEntry(i: byte) returns (c: nat)
    ensures c == Entry(i)
  {
    c := i;
    var k := 0;
    while k < 8
      invariant 0 <= k <= 8 && Entry(i) == Steps(c, 8 - k)
    {
      StepOnce(c, 8 - k);
      c := if c % 2 == 1 then Xor(POLY, c / 2) else c / 2;
      k := k + 1;
    }
  }

  method MakeTable() returns (table: array<nat>)
    ensures fresh(table) && IsTable(table)
  {
    table := new nat[256];
    var i := 0;
    while i < 256
      invariant 0 <= i <= 256
      invariant forall x: byte :: x < i ==> table[x] == Entry(x)
    {
      table[i] := MakeEntry(i);
      i := i + 1;
    }
  }

  ghost predicate IsTable(table: array<nat>)
    reads table
  {
    table.Length == 256 && forall x: byte :: table[x] == Entry(x)
  }

  /** The loop's body. */
  method LookUp(c: nat, b: byte, table: array<nat>) returns (r: nat)
    requires IsTable(table)
    ensures r == FeedByte(c, b)
  {
    LookupFeedsByte(c, b);
    r := Xor(table[Xor(c, b) % 256], c / 256);
  }

  /** The loop over the table: one byte a lookup. */
  method FeedAll(bytes: seq<byte>, table: array<nat>, start: nat) returns (c: nat)
    requires IsTable(table)
    ensures c == Register(bytes, |bytes|, start)
  {
    c := start;
    var i := 0;
    while i < |bytes|
      invariant 0 <= i <= |bytes| && c == Register(bytes, i, start)
    {
      c := LookUp(c, bytes[i], table);
      i := i + 1;
    }
  }

  // ---- Eight hexadecimal digits ----

  function Digit(d: nat): char
    requires d < 16
  {
    "0123456789abcdef"[d]
  }

  /** toString(16). */
  function Hex(n: nat): (s: string)
    ensures |s| > 0
  {
    if n < 16 then [Digit(n)] else Hex(n / 16) + [Digit(n % 16)]
  }

  /** padStart. */
  function Pad(s: string, width: nat): (p: string)
    ensures |p| == if |s| < width then width else |s|
    decreases width - |s|
  {
    if |s| >= width then s else Pad("0" + s, width)
  }

  function Printed(c: nat): string {
    Pad(Hex(c), 8)
  }

  function Value(ch: char): Option<nat> {
    if '0' <= ch <= '9' then Some(ch as nat - '0' as nat)
    else if 'a' <= ch <= 'f' then Some(10 + ch as nat - 'a' as nat)
    else None
  }

  /** What a reader makes of the digits. */
  function Read(s: string, n: nat): Option<nat>
    requires n <= |s|
    decreases n
  {
    if n == 0 then Some(0)
    else match (Read(s, n - 1), Value(s[n - 1])) {
           case (Some(high), Some(low)) => Some(16 * high + low)
           case _ => None
         }
  }

  lemma {:induction false} ReadSame(s: string, t: string, n: nat)
    requires n <= |s| && n <= |t| && forall i :: 0 <= i < n ==> s[i] == t[i]
    ensures Read(s, n) == Read(t, n)
    decreases n
  {
    if n > 0 { ReadSame(s, t, n - 1); }
  }

  lemma {:induction false} ReadPadded(s: string, n: nat)
    requires n <= |s|
    ensures Read("0" + s, n + 1) == Read(s, n)
    decreases n
  {
    var t := "0" + s;
    if n == 0 {
      assert Read(t, 0) == Some(0) && Value(t[0]) == Some(0);
    } else {
      ReadPadded(s, n - 1);
      assert t[n] == s[n - 1];
    }
  }

  lemma DigitValue(d: nat)
    requires d < 16
    ensures Value(Digit(d)) == Some(d)
  {
  }

  lemma {:induction false} HexReadsBack(n: nat)
    ensures Read(Hex(n), |Hex(n)|) == Some(n)
  {
    if n < 16 {
      DigitValue(n);
      assert Read(Hex(n), 0) == Some(0);
    } else {
      var front := Hex(n / 16);
      assert Read(Hex(n), |front|) == Some(n / 16) by {
        HexReadsBack(n / 16);
        ReadSame(front, Hex(n), |front|);
      }
      DigitValue(n % 16);
    }
  }

  lemma {:induction false} HexLength(n: nat, bits: nat)
    requires bits >= 4 && bits % 4 == 0 && n < Pow2(bits)
    ensures 4 * |Hex(n)| <= bits
    decreases bits
  {
    if n >= 16 {
      assert Pow2(bits) == 2 * Pow2(bits - 1) == 4 * Pow2(bits - 2);
      assert Pow2(bits - 2) == 2 * Pow2(bits - 3) == 4 * Pow2(bits - 4);
      HexLength(n / 16, bits - 4);
    }
  }

  lemma {:induction false} PadReadsBack(s: string, width: nat)
    ensures Read(Pad(s, width), |Pad(s, width)|) == Read(s, |s|)
    decreases width - |s|
  {
    if |s| < width {
      ReadPadded(s, |s|);
      PadReadsBack("0" + s, width);
    }
  }

  /** The checksum prints as exactly eight digits, and they read back to it. */
  lemma PrintedReadsBack(s: seq<byte>)
    ensures |Printed(Crc(s))| == 8 && Read(Printed(Crc(s)), 8) == Some(Crc(s)) && Crc(s) < WORDS
  {
    CrcBounded(s);
    Thirty2();
    HexLength(Crc(s), 32);
    HexReadsBack(Crc(s));
    PadReadsBack(Hex(Crc(s)), 8);
  }

  /** crc32, whole. */
  method Print(bytes: seq<byte>) returns (digits: string)
    ensures digits == Printed(Crc(bytes))
  {
    var table := MakeTable();
    var c := FeedAll(bytes, table, ONES);
    digits := Printed(Xor(c, ONES));
  }
}
