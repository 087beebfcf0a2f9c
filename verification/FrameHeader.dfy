/**
 * The WebSocket frame header (section 5.2 of RFC 6455): building the basic and
 * the extended header, printing them, and reading the fields back.
 */
module FrameHeader {
  import opened Arithmetic
  import opened Bytes
  import opened Words
  import opened Wrappers

  // Bit numbers of the flags
  const FIN := 7
  const RSV1 := 6
  const RSV2 := 5
  const RSV3 := 4
  const MASK := 7

  const CODE_16BIT: Byte := 126
  const CODE_64BIT: Byte := 127
  const SIZE_BASIC := 125
  const SIZE_EXTENDED := 0xFFFF
  const BASIC_HEADER_LENGTH := 2
  const MAX_EXTENDED_HEADER_LENGTH := 12

  type Size = x: int | 0 <= x < 0x1_0000_0000_0000_0000

  type ExtendedHeader = e: seq<Byte> | |e| == MAX_EXTENDED_HEADER_LENGTH witness [0, 0, 0, 0, 0, 0, 0, 0, 0, 0, 0, 0]

  datatype BasicHeader = BasicHeader(b0: Byte, b1: Byte)

  // ----- Single bits of a byte -----

  /** b | 1 << k, or b & ~(1 << k) */
  function PutBit(b: nat, k: nat, value: bool): (r: nat)
  {
    if k == 0 then (if value then 1 else 0) + 2 * (b / 2) else b % 2 + 2 * PutBit(b / 2, k - 1, value)
  }

  /** Setting one bit sets that bit and no other. */
  lemma {:induction false} PutBitOnly(b: nat, k: nat, value: bool, other: nat)
    ensures HasBit(PutBit(b, k, value), other) == if other == k then value else HasBit(b, other)
  {
    if k > 0 && other > 0 {
      PutBitOnly(b / 2, k - 1, value, other - 1);
    }
  }

  lemma {:induction false} PutBitFits(b: nat, k: nat, value: bool, n: nat)
    requires b < Pow2(n) && k < n
    ensures PutBit(b, k, value) < Pow2(n)
  {
    if k > 0 {
      PutBitFits(b / 2, k - 1, value, n - 1);
      PutBitStep(b, k, value);
      hide PutBit;
      assert PutBit(b / 2, k - 1, value) + 1 <= Pow2(n - 1);
    }
  }

  function Set(b: Byte, k: nat, value: bool): Byte
    requires k < 8
  {
    assert Pow2(8) == 256;
    PutBitFits(b, k, value, 8);
    PutBit(b, k, value)
  }

  lemma LowNibble(b: nat, k: nat, value: bool)
    requires k >= 4
    ensures PutBit(b, k, value) % 16 == b % 16
  {
    PutBitSteps(b, k, value);
    RemainderOf16(PutBit(b / 16, k - 4, value), b % 16);
  }

  lemma RemainderOf16(q: nat, r: nat)
    requires r < 16
    ensures (r + 16 * q) % 16 == r
  {
  }

  lemma LowSeven(b: nat, value: bool)
    ensures PutBit(b, 7, value) % 128 == b % 128
  {
    PutBitSteps(b, 7, value);
    PutBitSteps(b / 16, 3, value);
    hide PutBit;
    var r, m := b % 16, b / 16 % 8;
    RemainderOf128(b / 16 / 8, 16 * m + r);
    RemainderOf128(PutBit(b / 16 / 8, 0, value), 16 * m + r);
  }

  lemma RemainderOf128(q: nat, r: nat)
    requires r < 128
    ensures (128 * q + r) % 128 == r
  {
  }

  lemma PutBitSteps(b: nat, k: nat, value: bool)
    requires k >= 3
    ensures PutBit(b, k, value) == b % 8 + 8 * PutBit(b / 8, k - 3, value)
    ensures k >= 4 ==> PutBit(b, k, value) == b % 16 + 16 * PutBit(b / 16, k - 4, value)
  {
    PutBitStep(b, k, value);
    PutBitStep(b / 2, k - 1, value);
    PutBitStep(b / 2 / 2, k - 2, value);
    assert b / 2 / 2 == b / 4 && b / 4 / 2 == b / 8 && b / 8 / 2 == b / 16;
    if k >= 4 {
      PutBitStep(b / 8, k - 3, value);
    }
  }

  lemma PutBitStep(b: nat, k: nat, value: bool)
    requires k > 0
    ensures PutBit(b, k, value) == b % 2 + 2 * PutBit(b / 2, k - 1, value)
  {
  }

  // ----- Accessors -----

  predicate GetFin(h: BasicHeader) { HasBit(h.b0, FIN) }
  predicate GetRsv1(h: BasicHeader) { HasBit(h.b0, RSV1) }
  predicate GetRsv2(h: BasicHeader) { HasBit(h.b0, RSV2) }
  predicate GetRsv3(h: BasicHeader) { HasBit(h.b0, RSV3) }
  predicate GetMasked(h: BasicHeader) { HasBit(h.b1, MASK) }

  function GetOpcode(h: BasicHeader): nat { h.b0 % 16 }
  function GetBasicSize(h: BasicHeader): nat { h.b1 % 128 }

  function SetFin(h: BasicHeader, value: bool): BasicHeader { h.(b0 := Set(h.b0, FIN, value)) }
  function SetRsv1(h: BasicHeader, value: bool): BasicHeader { h.(b0 := Set(h.b0, RSV1, value)) }
  function SetRsv2(h: BasicHeader, value: bool): BasicHeader { h.(b0 := Set(h.b0, RSV2, value)) }
  function SetRsv3(h: BasicHeader, value: bool): BasicHeader { h.(b0 := Set(h.b0, RSV3, value)) }
  function SetMasked(h: BasicHeader, value: bool): BasicHeader { h.(b1 := Set(h.b1, MASK, value)) }

  function GetMaskingKeyOffset(h: BasicHeader): nat {
    if GetBasicSize(h) == CODE_16BIT then 2
    else if GetBasicSize(h) == CODE_64BIT then 8
    else 0
  }

  function GetHeaderLen(h: BasicHeader): nat {
    BASIC_HEADER_LENGTH + GetMaskingKeyOffset(h) + if GetMasked(h) then 4 else 0
  }

  // ----- Byte order -----

  /** _htonll: on a little-endian machine the eight bytes are swapped in memory. */
  method Htonll(src: Size, littleEndian: bool) returns (r: Size)
    ensures r == NetworkOrder(src, littleEndian)
  {
    hide LittleEndian, Number, Fits;
    var m := Machine(8, littleEndian);
    if !littleEndian {
      return src;
    }
    var x := new Byte[8](i requires 0 <= i < 8 => Image(src, m)[i]);
    x[0], x[7] := x[7], x[0];
    x[1], x[6] := x[6], x[1];
    x[2], x[5] := x[5], x[2];
    x[3], x[4] := x[4], x[3];
    assert x[..] == Reverse(Image(src, m));
    LoadIsSize(x[..], m);
    r := Load(x[..], m);
  }

  function NetworkOrder(x: Size, littleEndian: bool): Size {
    if littleEndian then
      var m := Machine(8, true);
      LoadIsSize(Reverse(Image(x, m)), m);
      Load(Reverse(Image(x, m)), m)
    else x
  }

  lemma LoadIsSize(s: seq<Byte>, m: Machine)
    requires |s| == 8 == m.wordSize
    ensures Load(s, m) < TWO_64
  {
    hide Fits, Number;
    ImageOfLoad(s, m);
    SizeFits(Load(s, m));
  }

  lemma SizeFits(x: nat)
    ensures Fits(x, 8) <==> x < TWO_64
  {
    FitsStep(x, 8);
    FitsStep(x / 256, 7);
    FitsStep(x / 256 / 256, 6);
    FitsStep(x / 256 / 256 / 256, 5);
    FitsFour(x / 256 / 256 / 256 / 256);
    hide Fits;
    assert x / 256 / 256 / 256 / 256 == x / 0x1_0000_0000;
  }

  lemma FitsStep(x: nat, n: nat)
    requires n > 0
    ensures Fits(x, n) <==> Fits(x / 256, n - 1)
  {
  }

  lemma FitsFour(x: nat)
    ensures Fits(x, 4) <==> x < 0x1_0000_0000
  {
    FitsStep(x, 4);
    FitsStep(x / 256, 3);
    FitsStep(x / 256 / 256, 2);
    FitsStep(x / 256 / 256 / 256, 1);
  }

  // ----- Building a header -----

  datatype Fields = Fields(
    opcode: nat, fin: bool, rsv1: bool, rsv2: bool, rsv3: bool, key: Option<Key>, size: Size)

  function Code(size: Size): (c: Byte)
    ensures c < 128
  {
    if size <= SIZE_BASIC then size else if size <= SIZE_EXTENDED then CODE_16BIT else CODE_64BIT
  }

  function Flag(value: bool, weight: nat): nat {
    if value then weight else 0
  }

  /** The first two bytes as section 5.2 of RFC 6455 draws them. */
  function Basic(f: Fields): BasicHeader {
    BasicHeader(
      Flag(f.fin, 128) + Flag(f.rsv1, 64) + Flag(f.rsv2, 32) + Flag(f.rsv3, 16) + f.opcode % 16,
      Flag(f.key.Some?, 128) + Code(f.size))
  }

  lemma {:induction false} SetFresh(b: nat, k: nat)
    requires !HasBit(b, k)
    ensures PutBit(b, k, true) == b + Pow2(k)
  {
    if k > 0 {
      SetFresh(b / 2, k - 1);
    }
  }

  lemma {:induction false} NoBits(k: nat)
    ensures !HasBit(0, k)
  {
    if k > 0 {
      NoBits(k - 1);
    }
  }

  predicate LowZero(a: nat, k: nat) {
    k == 0 || (a % 2 == 0 && LowZero(a / 2, k - 1))
  }

  /** Operands without a bit in common: | is addition. */
  lemma {:induction false} OrDisjoint(a: nat, b: nat, k: nat, n: nat)
    requires k <= n && a < Pow2(n) && b < Pow2(n) && b < Pow2(k) && LowZero(a, k)
    ensures OrBits(a, b, n) == a + b
  {
    if k == 0 {
      OrBitsZero(a, n);
    } else {
      OrDisjoint(a / 2, b / 2, k - 1, n - 1);
    }
  }

  lemma OrLowBits(a: Byte, b: Byte)
    ensures a % 16 == 0 && b < 16 ==> Or(a, b) == a + b
    ensures a % 128 == 0 && b < 128 ==> Or(a, b) == a + b
  {
    assert Pow2(8) == 256 && Pow2(7) == 128 && Pow2(4) == 16;
    if a % 128 == 0 && b < 128 {
      assert LowZero(a, 7) by {
        assert a == 0 || a == 128;
      }
      OrDisjoint(a, b, 7, 8);
    } else if a % 16 == 0 && b < 16 {
      LowNibbleZero(a);
      OrDisjoint(a, b, 4, 8);
    }
  }

  lemma LowNibbleZero(a: nat)
    requires a % 16 == 0
    ensures LowZero(a, 4)
  {
    var q := a / 16;
    assert LowZero(q, 0);
    assert 2 * q / 2 == q && LowZero(2 * q, 1);
    assert 4 * q / 2 == 2 * q && LowZero(4 * q, 2);
    assert 8 * q / 2 == 4 * q && LowZero(8 * q, 3);
  }

  /** The flags, or-ed into a zero byte one after the other. */
  method BuildFirstByte(f: Fields) returns (b0: Byte)
    ensures b0 == Basic(f).b0
  {
    hide OrBits, HasBit, PutBit;
    assert Pow2(4) == 16 && Pow2(5) == 32 && Pow2(6) == 64 && Pow2(7) == 128;
    b0 := 0;
    NoBits(7);
    NoBits(6);
    NoBits(5);
    NoBits(4);
    if f.fin {
      b0 := Raise(b0, FIN);
    }
    if f.rsv1 {
      b0 := Raise(b0, RSV1);
    }
    if f.rsv2 {
      b0 := Raise(b0, RSV2);
    }
    if f.rsv3 {
      b0 := Raise(b0, RSV3);
    }
    OrLowBits(b0, f.opcode % 16);
    b0 := Or(b0, f.opcode % 16);
  }

  /** b |= 1 << k, for a bit not yet set. */
  method Raise(b: Byte, k: nat) returns (r: Byte)
    requires 4 <= k < 8 && !HasBit(b, k)
    ensures r == b + Pow2(k)
    ensures k != 4 ==> HasBit(r, 4) == HasBit(b, 4)
    ensures k != 5 ==> HasBit(r, 5) == HasBit(b, 5)
    ensures k != 6 ==> HasBit(r, 6) == HasBit(b, 6)
  {
    hide OrBits, HasBit, PutBit;
    SetFresh(b, k);
    PutBitOnly(b, k, true, 4);
    PutBitOnly(b, k, true, 5);
    PutBitOnly(b, k, true, 6);
    r := Set(b, k, true);
  }

  method BuildBasicHeader(f: Fields) returns (h: BasicHeader)
    ensures h == Basic(f)
  {
    hide OrBits, HasBit, PutBit;
    var b0 := BuildFirstByte(f);
    var b1: Byte := 0;
    assert Pow2(7) == 128;
    if f.key.Some? {
      NoBits(7);
      b1 := Raise(b1, MASK);
    }
    var basicValue: Byte;
    if f.size <= SIZE_BASIC {
      basicValue := f.size;
    } else if f.size <= SIZE_EXTENDED {
      basicValue := CODE_16BIT;
    } else {
      basicValue := CODE_64BIT;
    }
    OrLowBits(b1, basicValue);
    b1 := Or(b1, basicValue);
    h := BasicHeader(b0, b1);
  }

  // ----- Reading the basic header back -----

  /** A flag added above a number is its top bit and hides none of the lower ones. */
  lemma {:induction false} TopBit(value: bool, r: nat, k: nat, j: nat)
    requires r < Pow2(k) && j <= k
    ensures HasBit(Flag(value, Pow2(k)) + r, j) == if j == k then value else HasBit(r, j)
  {
    if k > 0 {
      var b := Flag(value, Pow2(k)) + r;
      assert b / 2 == Flag(value, Pow2(k - 1)) + r / 2 && b % 2 == r % 2;
      if j > 0 {
        TopBit(value, r / 2, k - 1, j - 1);
      }
    }
  }

  lemma FlagGetters(f: Fields)
    ensures GetFin(Basic(f)) == f.fin && GetRsv1(Basic(f)) == f.rsv1
    ensures GetRsv2(Basic(f)) == f.rsv2 && GetRsv3(Basic(f)) == f.rsv3
  {
    hide OrBits, PutBit, HasBit;
    assert Pow2(4) == 16 && Pow2(5) == 32 && Pow2(6) == 64 && Pow2(7) == 128;
    hide Pow2, Code;
    var r3 := f.opcode % 16;
    var r2 := Flag(f.rsv3, 16) + r3;
    var r1 := Flag(f.rsv2, 32) + r2;
    var r0 := Flag(f.rsv1, 64) + r1;
    TopBit(f.fin, r0, 7, 7);
    TopBit(f.fin, r0, 7, 6);
    TopBit(f.rsv1, r1, 6, 6);
    TopBit(f.fin, r0, 7, 5);
    TopBit(f.rsv1, r1, 6, 5);
    TopBit(f.rsv2, r2, 5, 5);
    TopBit(f.fin, r0, 7, 4);
    TopBit(f.rsv1, r1, 6, 4);
    TopBit(f.rsv2, r2, 5, 4);
    TopBit(f.rsv3, r3, 4, 4);
  }

  lemma BasicGetters(f: Fields)
    ensures GetOpcode(Basic(f)) == f.opcode % 16
    ensures GetMasked(Basic(f)) == f.key.Some?
    ensures GetBasicSize(Basic(f)) == Code(f.size)
  {
    hide OrBits, PutBit, HasBit;
    assert Pow2(7) == 128;
    TopBit(f.key.Some?, Code(f.size), 7, 7);
  }

  // ----- The extended header -----

  /** The length field that follows the basic header: none, two or eight bytes, most significant first. */
  function LengthBytes(size: Size): (s: seq<Byte>)
    ensures |s| == if size <= SIZE_BASIC then 0 else if size <= SIZE_EXTENDED then 2 else 8
  {
    if size <= SIZE_BASIC then [] else if size <= SIZE_EXTENDED then [size / 256, size % 256] else BigEndian(size)
  }

  function BigEndian(size: Size): (s: seq<Byte>)
    ensures |s| == 8
  {
    Reverse(LittleEndian(size, 8))
  }

  function KeyBytes(key: Option<Key>): seq<Byte> {
    if key.Some? then key.value else []
  }

  /** The length field, the key if there is one, and zeros to the end. */
  function Extended(f: Fields): ExtendedHeader {
    var s := LengthBytes(f.size) + KeyBytes(f.key);
    s + Zeros(MAX_EXTENDED_HEADER_LENGTH - |s|)
  }

  /** In network order the bytes in memory read most significant first on either machine. */
  lemma NetworkImage(x: Size, littleEndian: bool)
    ensures Image(NetworkOrder(x, littleEndian), Machine(8, littleEndian)) == BigEndian(x)
  {
    hide LittleEndian, Number, Fits;
    if littleEndian {
      var m := Machine(8, true);
      LoadIsSize(Reverse(Image(x, m)), m);
      ImageOfLoad(Reverse(Image(x, m)), m);
    }
  }

  lemma BigEndianTail(size: Size)
    requires size <= SIZE_EXTENDED
    ensures BigEndian(size)[6..] == [size / 256, size % 256]
  {
    hide OrBits, XorBits;
    assert size / 256 / 256 == 0;
    assert LittleEndian(size, 8)[1] == LittleEndian(size / 256, 7)[0];
  }

  /** Copies the length into bytes and returns where the key goes. */
  method CopyPayload(bytes: array<Byte>, size: Size, littleEndian: bool) returns (offset: nat)
    requires bytes.Length == MAX_EXTENDED_HEADER_LENGTH
    modifies bytes
    ensures offset == |LengthBytes(size)|
    ensures bytes[..] == LengthBytes(size) + old(bytes[offset..])
  {
    hide LittleEndian, NetworkOrder, Fits;
    var payloadOffset := 0;
    if size <= SIZE_BASIC {
      payloadOffset := 8;
    } else if size <= SIZE_EXTENDED {
      payloadOffset := 6;
      BigEndianTail(size);
    }
    var temp := Htonll(size, littleEndian);
    var c := Image(temp, Machine(8, littleEndian));
    NetworkImage(size, littleEndian);
    hide BigEndian, Image;
    assert c[payloadOffset..] == LengthBytes(size);
    Copy(c[payloadOffset..], bytes, 0);
    offset := 8 - payloadOffset;
  }

  /** std::copy of a few bytes. */
  method Copy(s: seq<Byte>, bytes: array<Byte>, at: nat)
    requires at + |s| <= bytes.Length
    modifies bytes
    ensures bytes[..] == old(bytes[..at]) + s + old(bytes[at + |s|..])
  {
    for i := 0 to |s|
      invariant forall j :: 0 <= j < i ==> bytes[at + j] == s[j]
      invariant forall j :: 0 <= j < bytes.Length && !(at <= j < at + i) ==> bytes[j] == old(bytes[j])
    {
      bytes[at + i] := s[i];
    }
  }

  method BuildExtendedHeader(f: Fields, littleEndian: bool) returns (bytes: array<Byte>)
    ensures fresh(bytes) && bytes[..] == Extended(f)
  {
    hide LengthBytes;
    bytes := new Byte[MAX_EXTENDED_HEADER_LENGTH](_ => 0);
    var offset := CopyPayload(bytes, f.size, littleEndian);
    assert bytes[offset..] == Zeros(MAX_EXTENDED_HEADER_LENGTH - offset);
    if f.key.Some? {
      Copy(f.key.value, bytes, offset);
    }
  }

  function PrepareHeader(h: BasicHeader, e: ExtendedHeader): seq<Byte> {
    [h.b0, h.b1] + e[..GetHeaderLen(h) - BASIC_HEADER_LENGTH]
  }

  // ----- Reading the extended header -----

  function GetMaskingKey(h: BasicHeader, e: ExtendedHeader): Key {
    if !GetMasked(h) then [0, 0, 0, 0]
    else
      var offset := GetMaskingKeyOffset(h);
      e[offset..offset + 4]
  }

  /** ntohs of the sixteen-bit word that the first two bytes form in memory. */
  function GetExtendedSize(e: ExtendedHeader, littleEndian: bool): nat {
    var word := Load(e[..2], Machine(2, littleEndian));
    if littleEndian then word % 256 * 256 + word / 256 else word
  }

  /** _ntohll, which is _htonll, of the sixty-four-bit word that the first eight bytes form in memory. */
  function GetJumboSize(e: ExtendedHeader, littleEndian: bool): Size {
    var m := Machine(8, littleEndian);
    LoadIsSize(e[..8], m);
    NetworkOrder(Load(e[..8], m), littleEndian)
  }

  function GetPayloadSize(h: BasicHeader, e: ExtendedHeader, littleEndian: bool): nat {
    var val := GetBasicSize(h);
    if val <= SIZE_BASIC then val
    else if val == CODE_16BIT then GetExtendedSize(e, littleEndian)
    else GetJumboSize(e, littleEndian)
  }

  /** Both length fields are most significant byte first, whatever the machine. */
  lemma LengthFieldsAreBigEndian(e: ExtendedHeader, littleEndian: bool)
    ensures GetExtendedSize(e, littleEndian) == e[0] as nat * 256 + e[1]
    ensures GetJumboSize(e, littleEndian) == Number(Reverse(e[..8]))
  {
    ShortLoad(e[..2]);
    JumboLoad(e[..8], littleEndian);
  }

  lemma ShortLoad(s: seq<Byte>)
    requires |s| == 2
    ensures Load(s, Machine(2, true)) == s[0] as nat + s[1] as nat * 256
    ensures Load(s, Machine(2, false)) == s[1] as nat + s[0] as nat * 256
  {
    var r := Reverse(s);
    assert s[1..] == [s[1]] && r == [s[1], s[0]] && r[1..] == [s[0]];
    NumberOfOne(s[1]);
    NumberOfOne(s[0]);
  }

  lemma NumberOfOne(a: Byte)
    ensures Number([a]) == a
  {
    var s := [a];
    assert s[1..] == [];
  }

  lemma JumboLoad(s: seq<Byte>, littleEndian: bool)
    requires |s| == 8
    ensures Load(s, Machine(8, littleEndian)) < TWO_64
    ensures NetworkOrder(Load(s, Machine(8, littleEndian)), littleEndian) == Number(Reverse(s))
  {
    hide Number, LittleEndian, Fits;
    var m := Machine(8, littleEndian);
    LoadIsSize(s, m);
    ImageOfLoad(s, m);
  }

  // ----- The round trip -----

  function Printed(f: Fields): seq<Byte> {
    PrepareHeader(Basic(f), Extended(f))
  }

  /** A header prints as its two bytes, the length field and the key, in get_header_len bytes and at most 14. */
  lemma PrintedShape(f: Fields)
    ensures Printed(f) == [Basic(f).b0, Basic(f).b1] + LengthBytes(f.size) + KeyBytes(f.key)
    ensures |Printed(f)| == GetHeaderLen(Basic(f)) <= 14
    ensures GetMaskingKeyOffset(Basic(f)) == |LengthBytes(f.size)|
  {
    BasicGetters(f);
    hide HasBit, Basic;
    var k := |LengthBytes(f.size)| + |KeyBytes(f.key)|;
    assert GetHeaderLen(Basic(f)) - BASIC_HEADER_LENGTH == k;
    assert Extended(f)[..k] == LengthBytes(f.size) + KeyBytes(f.key);
  }

  lemma SizeReadsBack(f: Fields, e: ExtendedHeader, littleEndian: bool)
    requires LengthBytes(f.size) <= e
    ensures GetPayloadSize(Basic(f), e, littleEndian) == f.size
  {
    BasicGetters(f);
    hide HasBit, Basic;
    LengthFieldsAreBigEndian(e, littleEndian);
    hide GetJumboSize, GetExtendedSize;
    if f.size > SIZE_EXTENDED {
      assert e[..8] == BigEndian(f.size);
      ReverseTwice(LittleEndian(f.size, 8));
      SizeFits(f.size);
      NumberOfDigits(f.size, 8);
    }
  }

  /**
   * Whatever follows the printed header and whatever the rest of the reader's
   * buffer held, reading returns every field that was written, on either kind
   * of machine.
   */
  lemma HeaderRoundTrip(f: Fields, stream: seq<Byte>, h: BasicHeader, e: ExtendedHeader, littleEndian: bool)
    requires Printed(f) <= stream
    requires h == BasicHeader(stream[0], stream[1])
    requires GetHeaderLen(h) <= |stream|
    requires e[..GetHeaderLen(h) - BASIC_HEADER_LENGTH] == stream[BASIC_HEADER_LENGTH..GetHeaderLen(h)]
    ensures GetHeaderLen(h) == |Printed(f)|
    ensures GetFin(h) == f.fin && GetRsv1(h) == f.rsv1 && GetRsv2(h) == f.rsv2 && GetRsv3(h) == f.rsv3
    ensures GetOpcode(h) == f.opcode % 16
    ensures GetPayloadSize(h, e, littleEndian) == f.size
    ensures GetMasked(h) == f.key.Some?
    ensures GetMaskingKey(h, e) == if f.key.Some? then f.key.value else [0, 0, 0, 0]
  {
    PrintedShape(f);
    FlagGetters(f);
    BasicGetters(f);
    hide HasBit, Basic, Printed, LengthBytes, GetPayloadSize;
    var b := [Basic(f).b0, Basic(f).b1];
    assert stream[0] == (b + LengthBytes(f.size) + KeyBytes(f.key))[0];
    assert stream[1] == (b + LengthBytes(f.size) + KeyBytes(f.key))[1];
    assert h == Basic(f);
    var k := |Printed(f)|;
    assert stream[2..k] == Printed(f)[2..];
    assert Printed(f)[2..] == LengthBytes(f.size) + KeyBytes(f.key);
    Slices(e, LengthBytes(f.size), KeyBytes(f.key));
    SizeReadsBack(f, e, littleEndian);
  }

  lemma Slices(e: seq<Byte>, s: seq<Byte>, t: seq<Byte>)
    requires |s| + |t| <= |e| && e[..|s| + |t|] == s + t
    ensures s <= e && e[|s|..|s| + |t|] == t
  {
    assert e[..|s|] == e[..|s| + |t|][..|s|];
    assert e[|s|..|s| + |t|] == e[..|s| + |t|][|s|..];
  }

  /** No header is a proper prefix of another, and equal headers carry equal fields. */
  lemma PrefixFree(f: Fields, g: Fields)
    requires f.opcode < 16 && g.opcode < 16
    requires Printed(f) <= Printed(g)
    ensures f == g
  {
    PrintedShape(f);
    PrintedShape(g);
    hide HasBit, Basic, LengthBytes, GetPayloadSize;
    var s := Printed(g);
    var h := BasicHeader(s[0], s[1]);
    var e := Extended(g);
    assert h == Basic(g);
    assert s[2..] == e[..GetHeaderLen(h) - BASIC_HEADER_LENGTH];
    hide Extended;
    HeaderRoundTrip(f, s, h, e, true);
    HeaderRoundTrip(g, s, h, e, true);
  }

  /** No header that says the same about size and masking is shorter. */
  lemma ShortestForm(f: Fields, h: BasicHeader, e: ExtendedHeader, littleEndian: bool)
    requires GetMasked(h) == f.key.Some? && GetPayloadSize(h, e, littleEndian) == f.size
    ensures |Printed(f)| <= GetHeaderLen(h)
  {
    PrintedShape(f);
    hide HasBit, Basic, Printed;
    LengthFieldsAreBigEndian(e, littleEndian);
    hide GetJumboSize, GetExtendedSize;
    BasicGetters(f);
  }

  /**
   * Section 5.2 of RFC 6455, byte by byte: flags and opcode; the mask bit and a
   * length up to 125, or 126 and two bytes, or 127 and eight; the masking key.
   */
  lemma WireFormat(f: Fields)
    ensures var p := Printed(f); var n := |p| - if f.key.Some? then 4 else 0;
      && p[0] == (if f.fin then 0x80 else 0) + (if f.rsv1 then 0x40 else 0) + (if f.rsv2 then 0x20 else 0)
                 + (if f.rsv3 then 0x10 else 0) + f.opcode % 16
      && p[1] == (if f.key.Some? then 0x80 else 0)
                 + (if f.size <= 125 then f.size else if f.size <= 65535 then 126 else 127)
      && n == (if f.size <= 125 then 2 else if f.size <= 65535 then 4 else 10)
      && (125 < f.size <= 65535 ==> p[2] == f.size / 256 && p[3] == f.size % 256)
      && (65535 < f.size ==> forall i | 2 <= i < 10 :: p[i] == f.size / Pow256(9 - i) % 256)
      && (f.key.Some? ==> p[n..] == f.key.value)
  {
    hide LittleEndian, Pow256, HasBit;
    PrintedShape(f);
    hide Printed;
    if 65535 < f.size {
      forall i | 2 <= i < 10
        ensures Printed(f)[i] == f.size / Pow256(9 - i) % 256
      {
        DigitAt(f.size, 8, 9 - i);
        assert LengthBytes(f.size)[i - 2] == LittleEndian(f.size, 8)[9 - i];
      }
    }
  }

  /** The getters of single bits, by weight. */
  lemma GettersAreBits(h: BasicHeader)
    ensures GetFin(h) <==> h.b0 / 128 % 2 == 1
    ensures GetRsv1(h) <==> h.b0 / 64 % 2 == 1
    ensures GetRsv2(h) <==> h.b0 / 32 % 2 == 1
    ensures GetRsv3(h) <==> h.b0 / 16 % 2 == 1
    ensures GetMasked(h) <==> h.b1 / 128 % 2 == 1
  {
    hide HasBit;
    assert Pow2(4) == 16 && Pow2(5) == 32 && Pow2(6) == 64 && Pow2(7) == 128;
    HasBitIs(h.b0, 7);
    HasBitIs(h.b0, 6);
    HasBitIs(h.b0, 5);
    HasBitIs(h.b0, 4);
    HasBitIs(h.b1, 7);
  }

  /** What the first byte says: FIN, the three reserved bits and the opcode. */
  function FirstByte(h: BasicHeader): (bool, bool, bool, bool, nat) {
    (GetFin(h), GetRsv1(h), GetRsv2(h), GetRsv3(h), GetOpcode(h))
  }

  /** A setter changes what its getter returns and nothing else that can be read. */
  lemma SettersTouchOneField(h: BasicHeader, value: bool)
    ensures FirstByte(SetFin(h, value)) == FirstByte(h).(0 := value)
    ensures FirstByte(SetRsv1(h, value)) == FirstByte(h).(1 := value)
    ensures FirstByte(SetRsv2(h, value)) == FirstByte(h).(2 := value)
    ensures FirstByte(SetRsv3(h, value)) == FirstByte(h).(3 := value)
    ensures GetMasked(SetMasked(h, value)) == value && GetBasicSize(SetMasked(h, value)) == GetBasicSize(h)
  {
    hide HasBit, PutBit, OrBits;
    SetOnly(h.b0, FIN, value);
    SetOnly(h.b0, RSV1, value);
    SetOnly(h.b0, RSV2, value);
    SetOnly(h.b0, RSV3, value);
    PutBitOnly(h.b1, MASK, value, MASK);
    LowSeven(h.b1, value);
  }

  lemma SetOnly(b: Byte, k: nat, value: bool)
    requires 4 <= k < 8
    ensures HasBit(Set(b, k, value), FIN) == if k == FIN then value else HasBit(b, FIN)
    ensures HasBit(Set(b, k, value), RSV1) == if k == RSV1 then value else HasBit(b, RSV1)
    ensures HasBit(Set(b, k, value), RSV2) == if k == RSV2 then value else HasBit(b, RSV2)
    ensures HasBit(Set(b, k, value), RSV3) == if k == RSV3 then value else HasBit(b, RSV3)
    ensures Set(b, k, value) % 16 == b % 16
  {
    hide HasBit, PutBit, OrBits;
    PutBitOnly(b, k, value, FIN);
    PutBitOnly(b, k, value, RSV1);
    PutBitOnly(b, k, value, RSV2);
    PutBitOnly(b, k, value, RSV3);
    LowNibble(b, k, value);
  }
}
