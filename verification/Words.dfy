/**
 * Machine words: numbers, the bytes they occupy in memory under either byte
 * order, and the shifts and bitwise operations on them.
 *
 * Shifts are by whole bytes and the bitwise operations act byte by byte, so
 * everything here is phrased over base-256 digits.
 */
module Words {
  import opened Arithmetic
  import opened Bytes

  datatype Machine = Machine(wordSize: nat, littleEndian: bool)

  predicate IsMachine(m: Machine) {
    m.wordSize == 4 || m.wordSize == 8
  }

  // ----- LittleEndian, least significant first -----

  function Number(s: seq<Byte>): nat {
    if s == [] then 0 else s[0] + 256 * Number(s[1..])
  }

  /** x takes at most n bytes. */
  predicate Fits(x: nat, n: nat) {
    if n == 0 then x == 0 else Fits(x / 256, n - 1)
  }

  function Reverse(s: seq<Byte>): (r: seq<Byte>)
    ensures |r| == |s|
  {
    seq(|s|, i requires 0 <= i < |s| => s[|s| - 1 - i])
  }

  /** The bytes of a word in memory. */
  function Image(x: nat, m: Machine): (s: seq<Byte>)
    ensures |s| == m.wordSize
  {
    if m.littleEndian then LittleEndian(x, m.wordSize) else Reverse(LittleEndian(x, m.wordSize))
  }

  /** The number that bytes in memory stand for. */
  function Load(s: seq<Byte>, m: Machine): nat {
    if m.littleEndian then Number(s) else Number(Reverse(s))
  }

  lemma {:induction false} NumberOfDigits(x: nat, n: nat)
    requires Fits(x, n)
    ensures Number(LittleEndian(x, n)) == x
  {
    if n > 0 {
      NumberOfDigits(x / 256, n - 1);
      assert LittleEndian(x, n)[1..] == LittleEndian(x / 256, n - 1);
    }
  }

  lemma {:induction false} DigitsOfNumber(s: seq<Byte>)
    ensures Fits(Number(s), |s|) && LittleEndian(Number(s), |s|) == s
  {
    if s != [] {
      DigitsOfNumber(s[1..]);
      assert Number(s) % 256 == s[0] && Number(s) / 256 == Number(s[1..]);
    }
  }

  lemma ReverseTwice(s: seq<Byte>)
    ensures Reverse(Reverse(s)) == s
  {
  }

  lemma ImageOfLoad(s: seq<Byte>, m: Machine)
    requires |s| == m.wordSize
    ensures Image(Load(s, m), m) == s && Fits(Load(s, m), m.wordSize)
  {
    DigitsOfNumber(if m.littleEndian then s else Reverse(s));
    ReverseTwice(s);
  }

  lemma LoadOfImage(x: nat, m: Machine)
    requires Fits(x, m.wordSize)
    ensures Load(Image(x, m), m) == x
  {
    NumberOfDigits(x, m.wordSize);
    ReverseTwice(LittleEndian(x, m.wordSize));
  }

  // ----- Bitwise operations -----

  function Pow2(n: nat): nat {
    if n == 0 then 1 else 2 * Pow2(n - 1)
  }

  /** (b & 1 << k) == 1 << k */
  predicate HasBit(b: nat, k: nat) {
    if k == 0 then b % 2 == 1 else HasBit(b / 2, k - 1)
  }

  /** Bit i of the result is set when bit i of the operands differ. */
  function XorBits(a: nat, b: nat, n: nat): (r: nat)
    requires a < Pow2(n) && b < Pow2(n)
    ensures r < Pow2(n)
  {
    if n == 0 then 0
    else (if a % 2 == b % 2 then 0 else 1) + 2 * XorBits(a / 2, b / 2, n - 1)
  }

  /** Bit i of the result is set when it is set in either operand. */
  function OrBits(a: nat, b: nat, n: nat): (r: nat)
    requires a < Pow2(n) && b < Pow2(n)
    ensures r < Pow2(n)
  {
    if n == 0 then 0
    else (if a % 2 == 1 || b % 2 == 1 then 1 else 0) + 2 * OrBits(a / 2, b / 2, n - 1)
  }

  function Xor(a: Byte, b: Byte): Byte {
    assert Pow2(8) == 256;
    XorBits(a, b, 8)
  }

  function Or(a: Byte, b: Byte): Byte {
    assert Pow2(8) == 256;
    OrBits(a, b, 8)
  }

  /** Bit k is the digit of weight 2^k. */
  lemma {:induction false} HasBitIs(b: nat, k: nat)
    ensures Pow2(k) > 0 && (HasBit(b, k) <==> b / Pow2(k) % 2 == 1)
  {
    if k > 0 {
      HasBitIs(b / 2, k - 1);
      QuotientTwice(b, 2, Pow2(k - 1));
    }
  }

  lemma {:induction false} BitsAt(a: nat, b: nat, n: nat, k: nat)
    requires a < Pow2(n) && b < Pow2(n) && k < n
    ensures HasBit(XorBits(a, b, n), k) <==> HasBit(a, k) != HasBit(b, k)
    ensures HasBit(OrBits(a, b, n), k) <==> HasBit(a, k) || HasBit(b, k)
  {
    var x, o := XorBits(a, b, n), OrBits(a, b, n);
    assert x / 2 == XorBits(a / 2, b / 2, n - 1) && x % 2 == if a % 2 == b % 2 then 0 else 1;
    assert o / 2 == OrBits(a / 2, b / 2, n - 1) && o % 2 == if a % 2 == 1 || b % 2 == 1 then 1 else 0;
    if k > 0 {
      BitsAt(a / 2, b / 2, n - 1, k - 1);
    }
  }

  /** A bit of a ^ b is set when it is set in one operand only, a bit of a | b when it is set in either. */
  lemma BitwiseAt(a: Byte, b: Byte, k: nat)
    requires k < 8
    ensures HasBit(Xor(a, b), k) <==> HasBit(a, k) != HasBit(b, k)
    ensures HasBit(Or(a, b), k) <==> HasBit(a, k) || HasBit(b, k)
  {
    hide XorBits, OrBits, HasBit;
    assert Pow2(8) == 256;
    BitsAt(a, b, 8, k);
  }

  lemma {:induction false} XorBitsTwice(a: nat, b: nat, n: nat)
    requires a < Pow2(n) && b < Pow2(n)
    ensures XorBits(XorBits(a, b, n), b, n) == a
  {
    if n > 0 {
      var x := XorBits(a, b, n);
      XorBitsTwice(a / 2, b / 2, n - 1);
      assert x / 2 == XorBits(a / 2, b / 2, n - 1);
      assert x % 2 == if a % 2 == b % 2 then 0 else 1;
    }
  }

  lemma XorInvolution(a: Byte, b: Byte)
    ensures Xor(Xor(a, b), b) == a
  {
    assert Pow2(8) == 256;
    XorBitsTwice(a, b, 8);
  }

  lemma {:induction false} OrBitsZero(a: nat, n: nat)
    requires a < Pow2(n)
    ensures OrBits(a, 0, n) == a && OrBits(0, a, n) == a
  {
    if n > 0 {
      OrBitsZero(a / 2, n - 1);
    }
  }

  lemma OrZero(a: Byte)
    ensures Or(a, 0) == a && Or(0, a) == a
  {
    assert Pow2(8) == 256;
    OrBitsZero(a, 8);
  }

  /** A bitwise operation on words acts on each pair of digits. */
  function Wordwise(op: (Byte, Byte) -> Byte, x: nat, y: nat): nat {
    if x == 0 && y == 0 then 0 else op(x % 256, y % 256) + 256 * Wordwise(op, x / 256, y / 256)
  }

  function Bytewise(op: (Byte, Byte) -> Byte, s: seq<Byte>, t: seq<Byte>): (r: seq<Byte>)
    requires |s| == |t|
    ensures |r| == |s|
  {
    seq(|s|, i requires 0 <= i < |s| => op(s[i], t[i]))
  }

  lemma {:induction false} WordwiseDigits(op: (Byte, Byte) -> Byte, x: nat, y: nat, n: nat)
    requires op(0, 0) == 0
    ensures LittleEndian(Wordwise(op, x, y), n) == Bytewise(op, LittleEndian(x, n), LittleEndian(y, n))
    decreases n
  {
    if n > 0 {
      WordwiseDigits(op, x / 256, y / 256, n - 1);
      var w := Wordwise(op, x, y);
      assert w % 256 == op(x % 256, y % 256) && w / 256 == Wordwise(op, x / 256, y / 256);
      assert LittleEndian(x, n)[1..] == LittleEndian(x / 256, n - 1) &&
        LittleEndian(y, n)[1..] == LittleEndian(y / 256, n - 1);
    }
  }

  lemma {:induction false} WordwiseFits(op: (Byte, Byte) -> Byte, x: nat, y: nat, n: nat)
    requires op(0, 0) == 0 && Fits(x, n) && Fits(y, n)
    ensures Fits(Wordwise(op, x, y), n)
    decreases n
  {
    if n > 0 {
      WordwiseFits(op, x / 256, y / 256, n - 1);
      assert Wordwise(op, x, y) / 256 == Wordwise(op, x / 256, y / 256);
    }
  }

  /** The same in memory, under either byte order. */
  lemma WordwiseImage(op: (Byte, Byte) -> Byte, x: nat, y: nat, m: Machine)
    requires op(0, 0) == 0
    ensures Image(Wordwise(op, x, y), m) == Bytewise(op, Image(x, m), Image(y, m))
  {
    WordwiseDigits(op, x, y, m.wordSize);
  }

  // ----- Shifts by whole bytes -----

  function ShiftRight(x: nat, n: nat): nat {
    if n == 0 then x else ShiftRight(x / 256, n - 1)
  }

  /** Left shift in a word of w bytes: the bytes pushed out at the top are lost. */
  function ShiftLeft(x: nat, n: nat, w: nat): nat {
    if w == 0 then 0
    else if n == 0 then x % 256 + 256 * ShiftLeft(x / 256, 0, w - 1)
    else 256 * ShiftLeft(x, n - 1, w - 1)
  }

  lemma {:induction false} ZeroDigits(n: nat)
    ensures LittleEndian(0, n) == Zeros(n)
  {
    if n > 0 {
      ZeroDigits(n - 1);
    }
  }

  lemma {:induction false} FitsDigits(x: nat, n: nat, extra: nat)
    requires Fits(x, n)
    ensures LittleEndian(x, n + extra) == LittleEndian(x, n) + Zeros(extra)
  {
    if n == 0 {
      ZeroDigits(extra);
    } else {
      FitsDigits(x / 256, n - 1, extra);
    }
  }

  lemma {:induction false} ShiftRightDigits(x: nat, k: nat, n: nat)
    ensures LittleEndian(ShiftRight(x, k), n) == LittleEndian(x, k + n)[k..]
    decreases k
  {
    if k > 0 {
      ShiftRightDigits(x / 256, k - 1, n);
      assert LittleEndian(x, k + n)[1..] == LittleEndian(x / 256, k - 1 + n);
      assert LittleEndian(x, k + n)[k..] == LittleEndian(x, k + n)[1..][k - 1..];
    }
  }

  lemma DigitsCons(d: Byte, y: nat, w: nat)
    requires w > 0
    ensures LittleEndian(d + 256 * y, w) == [d] + LittleEndian(y, w - 1) && (Fits(d + 256 * y, w) <==> Fits(y, w - 1))
  {
    var x: nat := d + 256 * y;
    assert x % 256 == d && x / 256 == y;
  }

  lemma {:induction false} ShiftLeftDigits(x: nat, k: nat, w: nat)
    requires k <= w
    ensures LittleEndian(ShiftLeft(x, k, w), w) == Zeros(k) + LittleEndian(x, w - k) && Fits(ShiftLeft(x, k, w), w)
    decreases w
  {
    if w > 0 {
      if k == 0 {
        ShiftLeftDigits(x / 256, 0, w - 1);
        DigitsCons(x % 256, ShiftLeft(x / 256, 0, w - 1), w);
        assert Zeros(0) + LittleEndian(x / 256, w - 1) == LittleEndian(x / 256, w - 1);
        assert [x % 256] + LittleEndian(x / 256, w - 1) == LittleEndian(x, w) == Zeros(0) + LittleEndian(x, w);
      } else {
        ShiftLeftDigits(x, k - 1, w - 1);
        DigitsCons(0, ShiftLeft(x, k - 1, w - 1), w);
        assert Zeros(k) == [0] + Zeros(k - 1);
      }
    }
  }

  lemma {:induction false} DigitsPrefix(x: nat, n: nat, k: nat)
    requires k <= n
    ensures LittleEndian(x, n)[..k] == LittleEndian(x, k)
  {
    if k > 0 {
      DigitsPrefix(x / 256, n - 1, k - 1);
    }
  }
}
