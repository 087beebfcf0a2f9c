/**
 * Base64: the encoder and decoder with their three-byte and four-byte scratch
 * arrays, against section 4 of RFC 4648.
 */
module Base64 {
  import opened Arithmetic
  import opened Bytes

  const UPPER := "ABCDEFGHIJKLMNOPQRSTUVWXYZ"
  const LOWER := "abcdefghijklmnopqrstuvwxyz"
  const DIGITS := "0123456789+/"
  const BASE64_CHARS := UPPER + LOWER + DIGITS

  const NOT_FOUND: Byte := 0xff

  type Sextet = x: int | 0 <= x < 64

  predicate IsBase64(c: char) {
    || c == '+'
    || '/' <= c <= '9'
    || 'A' <= c <= 'Z'
    || 'a' <= c <= 'z'
  }

  /** Row x of the table of section 4. */
  function Char(x: Sextet): char {
    BASE64_CHARS[x]
  }

  lemma Upper(x: nat)
    requires x < 26
    ensures UPPER[x] as int == 'A' as int + x
  {
  }

  lemma Lower(x: nat)
    requires x < 26
    ensures LOWER[x] as int == 'a' as int + x
  {
  }

  lemma Digit(x: nat)
    requires x < 12
    ensures x < 10 ==> DIGITS[x] as int == '0' as int + x
    ensures x == 10 ==> DIGITS[x] == '+'
    ensures x == 11 ==> DIGITS[x] == '/'
  {
  }

  lemma Table(x: Sextet)
    ensures x < 26 ==> Char(x) as int == 'A' as int + x
    ensures 26 <= x < 52 ==> Char(x) as int == 'a' as int + (x - 26)
    ensures 52 <= x < 62 ==> Char(x) as int == '0' as int + (x - 52)
    ensures x == 62 ==> Char(x) == '+'
    ensures x == 63 ==> Char(x) == '/'
  {
    InThreeParts(UPPER, LOWER, DIGITS, x);
    if x < 26 {
      Upper(x);
    } else if x < 52 {
      Lower(x - 26);
    } else {
      Digit(x - 52);
    }
  }

  lemma InThreeParts(a: string, b: string, c: string, x: nat)
    requires x < |a| + |b| + |c|
    ensures (a + b + c)[x] == if x < |a| then a[x] else if x < |a| + |b| then b[x - |a|] else c[x - |a| - |b|]
  {
  }

  function Value(c: char): Sextet
    requires IsBase64(c)
  {
    if c == '+' then 62
    else if c == '/' then 63
    else if c <= '9' then c as int - '0' as int + 52
    else if c <= 'Z' then c as int - 'A' as int
    else c as int - 'a' as int + 26
  }

  /** is_base64 tells exactly the characters of the table, and each has one place in it. */
  lemma ValueOfChar(x: Sextet)
    ensures IsBase64(Char(x)) && Value(Char(x)) == x
  {
    hide Char;
    Table(x);
  }

  lemma CharOfValue(c: char)
    requires IsBase64(c)
    ensures Char(Value(c)) == c
  {
    hide Char;
    Table(Value(c));
  }

  /** base64_chars.find, cast to a byte: npos becomes 0xFF. */
  method Find(c: char) returns (r: Byte)
    ensures r == if IsBase64(c) then Value(c) else NOT_FOUND
  {
    var k := 0;
    while k < 64
      invariant k <= 64
      invariant forall j: Sextet | j < k :: Char(j) != c
    {
      if BASE64_CHARS[k] == c {
        ValueOfChar(k);
        return k;
      }
      k := k + 1;
    }
    if IsBase64(c) {
      CharOfValue(c);
      assert false;
    }
    r := NOT_FOUND;
  }

  // ----- Section 4 of RFC 4648 -----

  /** Three bytes are a number of 24 bits, which is four digits of six bits. */
  function Group(a: Byte, b: Byte, c: Byte): (s: string)
    ensures |s| == 4
  {
    var n: nat := a * 65536 + b * 256 + c;
    [Char(n / 262144), Char(n / 4096 % 64), Char(n / 64 % 64), Char(n % 64)]
  }

  /** A last group of one or two bytes gets zero bits on the right, and pad characters for the missing digits. */
  function Encode(x: seq<Byte>): (s: string) {
    if |x| == 0 then ""
    else if |x| == 1 then Group(x[0], 0, 0)[..2] + "=="
    else if |x| == 2 then Group(x[0], x[1], 0)[..3] + "="
    else Group(x[0], x[1], x[2]) + Encode(x[3..])
  }

  function Bytes3(a: Sextet, b: Sextet, c: Sextet, d: Sextet): (s: seq<Byte>)
    ensures |s| == 3
  {
    var n: nat := a * 262144 + b * 4096 + c * 64 + d;
    [n / 65536, n / 256 % 256, n % 256]
  }

  /** The leading characters of the alphabet; decoding stops at the first other character. */
  function Digits(s: string): (k: nat)
    ensures k <= |s| && forall i | 0 <= i < k :: IsBase64(s[i])
    ensures k < |s| ==> !IsBase64(s[k])
  {
    if s == "" || !IsBase64(s[0]) then 0 else 1 + Digits(s[1..])
  }

  /** Four digits are three bytes; two or three left over are one or two; one left over is nothing. */
  function DecodeDigits(s: string): seq<Byte>
    requires forall i | 0 <= i < |s| :: IsBase64(s[i])
  {
    if |s| <= 1 then []
    else if |s| == 2 then Bytes3(Value(s[0]), Value(s[1]), 0, 0)[..1]
    else if |s| == 3 then Bytes3(Value(s[0]), Value(s[1]), Value(s[2]), 0)[..2]
    else Bytes3(Value(s[0]), Value(s[1]), Value(s[2]), Value(s[3])) + DecodeDigits(s[4..])
  }

  function Decode(s: string): seq<Byte> {
    DecodeDigits(s[..Digits(s)])
  }

  // ----- The encoder -----

  /** The shifts and masks of the encoder cut the 24-bit number of three bytes. */
  lemma EncoderShifts(a: Byte, b: Byte, c: Byte)
    ensures a / 4 < 64 && a % 4 * 16 + b / 16 < 64 && b % 16 * 4 + c / 64 < 64 && c % 64 < 64
    ensures Group(a, b, c) == [Char(a / 4), Char(a % 4 * 16 + b / 16), Char(b % 16 * 4 + c / 64), Char(c % 64)]
  {
    hide Char;
    FourDigits(a / 4, a % 4 * 16 + b / 16, b % 16 * 4 + c / 64, c % 64);
  }

  /** Splits three bytes into four sextets. */
  method Split(three: array<Byte>, four: array<Byte>)
    requires three.Length == 3 && four.Length == 4 && three != four
    modifies four
    ensures forall k | 0 <= k < 4 :: four[k] < 64
    ensures Group(three[0], three[1], three[2]) == [Char(four[0]), Char(four[1]), Char(four[2]), Char(four[3])]
  {
    hide Group, Char;
    var a, b, c := three[0], three[1], three[2];
    EncoderShifts(a, b, c);
    four[0] := a / 4;
    four[1] := a % 4 * 16 + b / 16;
    four[2] := b % 16 * 4 + c / 64;
    four[3] := c % 64;
  }

  method EncodeBytes(input: seq<Byte>) returns (ret: string)
    ensures ret == Encode(input)
  {
    hide Encode, Group, Char;
    ret := "";
    var three, four := new Byte[3], new Byte[4];
    var i, pos := 0, 0;
    EncodeStart();
    assert input[0..] == input;
    while pos < |input|
      invariant i < 3 && i <= pos <= |input|
      invariant forall k | 0 <= k < i :: three[k] == input[pos - i + k]
      invariant Encode(input) == ret + Encode(input[pos - i..])
    {
      three[i] := input[pos];
      i, pos := i + 1, pos + 1;
      if i == 3 {
        EncodeWhole(input, pos - 3);
        Split(three, four);
        ret := Append(ret, four, 4);
        i := 0;
      }
    }
    assert input[|input|..] == [];
    if i > 0 {
      ret := EncodeTail(ret, three, four, i, input[pos - i..]);
    }
  }

  /** The bytes left over, filled up with zeros, and the padding. */
  method EncodeTail(ret: string, three: array<Byte>, four: array<Byte>, count: nat, ghost rest: seq<Byte>)
    returns (r: string)
    requires three.Length == 3 && four.Length == 4 && three != four
    requires 0 < count < 3 && |rest| == count && forall k | 0 <= k < count :: three[k] == rest[k]
    modifies three, four
    ensures r == ret + Encode(rest)
  {
    hide Encode, Group, Char;
    EncodeRest(rest);
    for j := count to 3
      invariant forall k | 0 <= k < count :: three[k] == rest[k]
      invariant forall k | count <= k < j :: three[k] == 0
    {
      three[j] := 0;
    }
    Split(three, four);
    r := Append(ret, four, count + 1);
    var i := count;
    while i < 3
      invariant count <= i <= 3
      invariant ret + Encode(rest) == r + (if i == 1 then "==" else if i == 2 then "=" else "")
    {
      i := i + 1;
      r := r + "=";
    }
  }

  /** Appends the characters of the first sextets. */
  method Append(ret: string, four: array<Byte>, count: nat) returns (r: string)
    requires four.Length == 4 && count <= 4 && forall k | 0 <= k < 4 :: four[k] < 64
    ensures r == ret + [Char(four[0]), Char(four[1]), Char(four[2]), Char(four[3])][..count]
  {
    hide Char;
    r := ret;
    ghost var group := [Char(four[0]), Char(four[1]), Char(four[2]), Char(four[3])];
    for i := 0 to count
      invariant r == ret + group[..i]
    {
      r := r + [Char(four[i])];
    }
  }

  lemma EncodeStart()
    ensures Encode([]) == ""
  {
  }

  lemma EncodeWhole(x: seq<Byte>, i: nat)
    requires i + 3 <= |x|
    ensures Encode(x[i..]) == Group(x[i], x[i + 1], x[i + 2]) + Encode(x[i + 3..])
  {
    assert x[i..][3..] == x[i + 3..];
  }

  lemma EncodeRest(x: seq<Byte>)
    ensures |x| == 1 ==> Encode(x) == Group(x[0], 0, 0)[..2] + "=="
    ensures |x| == 2 ==> Encode(x) == Group(x[0], x[1], 0)[..3] + "="
  {
  }

  // ----- The decoder -----

  /** The shifts and masks of the decoder on four sextets, the last of which may be missing. */
  lemma DecoderShifts(a: Byte, b: Byte, c: Byte, d: Byte)
    requires a < 64 && b < 64
    ensures a * 4 + b / 16 % 4 == Bytes3(a, b, 0, 0)[0]
    ensures c < 64 ==> [a * 4 + b / 16 % 4, b % 16 * 16 + c / 4 % 16] == Bytes3(a, b, c, 0)[..2]
    ensures c < 64 && d < 64 ==> [a * 4 + b / 16 % 4, b % 16 * 16 + c / 4 % 16, c % 4 * 64 + d] == Bytes3(a, b, c, d)
  {
    ThreeDigits(a, b, 0, 0);
    if c < 64 {
      ThreeDigits(a, b, c, 0);
      if d < 64 {
        ThreeDigits(a, b, c, d);
      }
    }
  }

  lemma ThreeDigits(a: Sextet, b: Sextet, c: Sextet, d: Sextet)
    ensures Bytes3(a, b, c, d) == [a * 4 + b / 16, b % 16 * 16 + c / 4, c % 4 * 64 + d]
  {
    var n: nat := a * 262144 + b * 4096 + c * 64 + d;
    var x: nat := a * 4 + b / 16;
    var y: nat := b % 16 * 16 + c / 4;
    var z: nat := c % 4 * 64 + d;
    var n1: nat := x * 256 + y;
    assert n == n1 * 256 + z;
    Quotient256(n, n1, z);
    Quotient256(n1, x, y);
    assert n / 65536 == n / 256 / 256;
  }

  lemma Quotient256(n: nat, q: nat, r: nat)
    requires n == q * 256 + r && r < 256
    ensures n / 256 == q && n % 256 == r
  {
  }

  /** Looks up four characters in the table; the scratch array ends up with their places. */
  method LookUp(four: array<Byte>)
    requires four.Length == 4
    modifies four
    ensures forall k | 0 <= k < 4 ::
      four[k] == if IsBase64(old(four[k]) as char) then Value(old(four[k]) as char) else NOT_FOUND
  {
    hide IsBase64, Value;
    for i := 0 to 4
      invariant forall k | 0 <= k < i ::
        four[k] == if IsBase64(old(four[k]) as char) then Value(old(four[k]) as char) else NOT_FOUND
      invariant forall k | i <= k < 4 :: four[k] == old(four[k])
    {
      var r := Find(four[i] as char);
      four[i] := r;
    }
  }

  /** Joins four sextets into three bytes, each cut to eight bits. */
  method Join(four: array<Byte>, three: array<Byte>)
    requires four.Length == 4 && three.Length == 3 && four != three && four[0] < 64
    modifies three
    ensures four[1] < 64 ==> three[0] == Bytes3(four[0], four[1], 0, 0)[0]
    ensures four[1] < 64 && four[2] < 64 ==> three[..2] == Bytes3(four[0], four[1], four[2], 0)[..2]
    ensures four[1] < 64 && four[2] < 64 && four[3] < 64 ==> three[..] == Bytes3(four[0], four[1], four[2], four[3])
  {
    hide Bytes3;
    var a: nat, b: nat, c: nat, d: nat := four[0], four[1], four[2], four[3];
    var x, y, z := (a * 4 + b / 16 % 4) % 256, (b % 16 * 16 + c / 4 % 16) % 256, (c % 4 * 64 + d) % 256;
    if b < 64 {
      JoinedBytes(a, b, c, d, x, y, z);
    }
    three[0] := x;
    three[1] := y;
    three[2] := z;
    assert three[..] == [x, y, z] && three[..2] == [x, y];
  }

  lemma JoinedBytes(a: Byte, b: Byte, c: Byte, d: Byte, x: Byte, y: Byte, z: Byte)
    requires a < 64 && b < 64
    requires x == (a * 4 + b / 16 % 4) % 256 && y == (b % 16 * 16 + c / 4 % 16) % 256 && z == (c % 4 * 64 + d) % 256
    ensures x == Bytes3(a, b, 0, 0)[0]
    ensures c < 64 ==> [x, y] == Bytes3(a, b, c, 0)[..2]
    ensures c < 64 && d < 64 ==> [x, y, z] == Bytes3(a, b, c, d)
  {
    hide Bytes3;
    DecoderShifts(a, b, c, d);
    CutToByte(a * 4 + b / 16 % 4);
    CutToByte(b % 16 * 16 + c / 4 % 16);
    CutToByte(c % 4 * 64 + d);
  }

  lemma CutToByte(n: nat)
    ensures n < 256 ==> n % 256 == n
  {
  }

  method DecodeString(input: string) returns (ret: seq<Byte>)
    ensures ret == Decode(input)
  {
    hide Slice, Digital, Bytes3, Value, Digits, IsBase64, Decode, DecodeDigits;
    ret := [];
    var three, four := new Byte[3], new Byte[4];
    var i, pos := 0, 0;
    ghost var count := Digits(input);
    ghost var start := 0;  // where the group under way begins
    assert input[0..] == input;
    SliceStarts(input);
    while pos < |input| && input[pos] != '=' && IsBase64(input[pos])
      invariant i < 4 && start + i == pos <= count
      invariant count == pos + Digits(input[pos..])
      invariant forall k | 0 <= k < i :: four[k] == input[start + k] as int
      invariant Decode(input) == ret + Slice(input, start, count)
    {
      DigitsStep(input, pos);
      DigitIsByte(input[pos]);
      four[i] := input[pos] as int;
      i, pos := i + 1, pos + 1;
      if i == 4 {
        var bytes := DecodeGroup(four, three, input, start, count);
        ret := ret + bytes;
        i, start := 0, start + 4;
      }
    }
    DigitsStep(input, pos);
    PadIsNoDigit();
    assert pos == count;
    SliceEnds(input, start, count);
    if i > 0 {
      var tail := DecodeTail(four, three, i, input, start);
      ret := ret + tail;
    }
  }

  /** The first k characters are in the alphabet. */
  predicate Digital(s: string, k: nat) {
    k <= |s| && forall j | 0 <= j < k :: IsBase64(s[j])
  }

  /** What the digits from i up to k decode to. */
  function Slice(s: string, i: nat, k: nat): seq<Byte>
    requires i <= k && Digital(s, k)
  {
    DecodeDigits(s[i..k])
  }

  lemma SliceStarts(s: string)
    ensures Digital(s, Digits(s)) && Slice(s, 0, Digits(s)) == Decode(s)
  {
    hide IsBase64, Digits;
    assert s[0..Digits(s)] == s[..Digits(s)];
  }

  lemma SliceEnds(s: string, i: nat, k: nat)
    requires i <= k && Digital(s, k)
    ensures i == k ==> Slice(s, i, k) == []
  {
    hide IsBase64;
  }

  /** One whole group of digits, the ones from start on. */
  method DecodeGroup(four: array<Byte>, three: array<Byte>, ghost s: string, ghost start: nat, ghost count: nat)
    returns (bytes: seq<Byte>)
    requires four.Length == 4 && three.Length == 3 && four != three
    requires start + 4 <= count && Digital(s, count)
    requires forall k | 0 <= k < 4 :: four[k] == s[start + k] as int
    modifies four, three
    ensures Slice(s, start, count) == bytes + Slice(s, start + 4, count)
  {
    hide Bytes3, Value, IsBase64, Slice;
    DecodeWhole(s, start, count);
    LookUp(four);
    Join(four, three);
    bytes := three[..];
  }

  /** The digits left over, filled up with zero characters, which the table does not have. */
  method DecodeTail(four: array<Byte>, three: array<Byte>, i: nat, ghost s: string, ghost start: nat)
    returns (tail: seq<Byte>)
    requires four.Length == 4 && three.Length == 3 && four != three
    requires 0 < i < 4 && Digital(s, start + i)
    requires forall k | 0 <= k < i :: four[k] == s[start + k] as int
    modifies four, three
    ensures tail == Slice(s, start, start + i)
  {
    hide DecodeDigits, Bytes3, Value;
    ghost var digits := s[start..start + i];
    for j := i to 4
      invariant forall k | 0 <= k < i :: four[k] == digits[k] as int
      invariant forall k | i <= k < j :: four[k] == 0
    {
      four[j] := 0;
    }
    LookUp(four);
    Join(four, three);
    tail := three[..i - 1];
    DecodeRest(digits, 0);
    assert digits[0..] == digits;
    if i == 2 {
      assert tail == Bytes3(Value(digits[0]), Value(digits[1]), 0, 0)[..1];
    }
  }

  lemma DigitIsByte(c: char)
    requires IsBase64(c)
    ensures c as int < 256
  {
  }

  lemma PadIsNoDigit()
    ensures !IsBase64('=')
  {
  }

  lemma DigitsStep(s: string, i: nat)
    requires i <= |s|
    ensures Digits(s[i..]) == if i < |s| && IsBase64(s[i]) then 1 + Digits(s[i + 1..]) else 0
  {
    if i < |s| {
      assert s[i..][1..] == s[i + 1..];
    }
  }

  lemma DecodeWhole(s: string, i: nat, k: nat)
    requires i + 4 <= k && Digital(s, k)
    ensures Slice(s, i, k) ==
      Bytes3(Value(s[i]), Value(s[i + 1]), Value(s[i + 2]), Value(s[i + 3])) + Slice(s, i + 4, k)
  {
    hide IsBase64, Value, Bytes3;
    assert s[i..k][4..] == s[i + 4..k];
  }

  lemma DecodeRest(s: string, i: nat)
    requires i <= |s| && forall k | 0 <= k < |s| :: IsBase64(s[k])
    ensures |s| <= i + 1 ==> DecodeDigits(s[i..]) == []
    ensures i + 2 == |s| ==> DecodeDigits(s[i..]) == Bytes3(Value(s[i]), Value(s[i + 1]), 0, 0)[..1]
    ensures i + 3 == |s| ==> DecodeDigits(s[i..]) == Bytes3(Value(s[i]), Value(s[i + 1]), Value(s[i + 2]), 0)[..2]
  {
    hide IsBase64, Value, Bytes3;
  }

  // ----- The round trip -----

  predicate AllBase64(s: string) {
    forall i | 0 <= i < |s| :: IsBase64(s[i])
  }

  function Pad(n: nat): string {
    if n % 3 == 0 then "" else if n % 3 == 1 then "==" else "="
  }

  /** The text without the padding. */
  function Unpadded(x: seq<Byte>): string {
    if |x| == 0 then ""
    else if |x| == 1 then Group(x[0], 0, 0)[..2]
    else if |x| == 2 then Group(x[0], x[1], 0)[..3]
    else Group(x[0], x[1], x[2]) + Unpadded(x[3..])
  }

  lemma GroupIsBase64(a: Byte, b: Byte, c: Byte)
    ensures AllBase64(Group(a, b, c))
  {
    hide Char, IsBase64;
    var n: nat := a * 65536 + b * 256 + c;
    ValueOfChar(n / 262144);
    ValueOfChar(n / 4096 % 64);
    ValueOfChar(n / 64 % 64);
    ValueOfChar(n % 64);
  }

  /** Padding only at the end, a character for each byte missing from the last group. */
  lemma {:induction false} EncodeShape(x: seq<Byte>)
    ensures Encode(x) == Unpadded(x) + Pad(|x|) && AllBase64(Unpadded(x))
    decreases |x|
  {
    hide Group, IsBase64, Pad;
    PadRepeats(|x|);
    if |x| > 2 {
      GroupIsBase64(x[0], x[1], x[2]);
      EncodeShape(x[3..]);
    } else if |x| == 2 {
      GroupIsBase64(x[0], x[1], 0);
    } else if |x| == 1 {
      GroupIsBase64(x[0], 0, 0);
    }
  }

  lemma PadRepeats(n: nat)
    ensures n > 2 ==> Pad(n) == Pad(n - 3)
    ensures n == 0 ==> Pad(n) == ""
    ensures n == 1 ==> Pad(n) == "=="
    ensures n == 2 ==> Pad(n) == "="
  {
  }

  /** Four characters for every three bytes or part of them. */
  lemma {:induction false} EncodeLength(x: seq<Byte>)
    ensures |Encode(x)| == (|x| + 2) / 3 * 4
    decreases |x|
  {
    hide Group;
    if |x| > 2 {
      EncodeLength(x[3..]);
    }
  }

  lemma {:induction false} DigitsBefore(s: string, pad: string)
    requires AllBase64(s) && (pad != "" ==> pad[0] == '=')
    ensures Digits(s + pad) == |s|
  {
    if s != "" {
      assert (s + pad)[1..] == s[1..] + pad;
      DigitsBefore(s[1..], pad);
    } else {
      assert s + pad == pad;
    }
  }

  /** Decoding the four characters of three bytes gives the bytes. */
  lemma GroupDecodes(a: Byte, b: Byte, c: Byte)
    ensures AllBase64(Group(a, b, c))
    ensures var g := Group(a, b, c); Bytes3(Value(g[0]), Value(g[1]), Value(g[2]), Value(g[3])) == [a, b, c]
  {
    hide Char, Group, Bytes3, Value, IsBase64;
    GroupIsBase64(a, b, c);
    EncoderShifts(a, b, c);
    var w: Sextet, x: Sextet, y: Sextet, z: Sextet := a / 4, a % 4 * 16 + b / 16, b % 16 * 4 + c / 64, c % 64;
    ValueOfChar(w);
    ValueOfChar(x);
    ValueOfChar(y);
    ValueOfChar(z);
    ThreeDigits(w, x, y, z);
    ThreeBytes(a, b, c);
  }

  lemma ThreeBytes(a: Byte, b: Byte, c: Byte)
    ensures var x: nat, y: nat := a % 4 * 16 + b / 16, b % 16 * 4 + c / 64;
      a / 4 * 4 + x / 16 == a && x % 16 * 16 + y / 4 == b && y % 4 * 64 + c % 64 == c
  {
  }

  lemma {:induction false} UnpaddedDecodes(x: seq<Byte>)
    ensures AllBase64(Unpadded(x)) && DecodeDigits(Unpadded(x)) == x
    decreases |x|
  {
    hide Group, Bytes3, Value, IsBase64;
    EncodeShape(x);
    if |x| > 2 {
      GroupDecodes(x[0], x[1], x[2]);
      UnpaddedDecodes(x[3..]);
      assert Unpadded(x)[4..] == Unpadded(x[3..]);
      assert [x[0], x[1], x[2]] + x[3..] == x;
    } else if |x| > 0 {
      TailDecodes(x[0], if |x| == 2 then x[1] else 0);
    }
  }

  lemma TailDecodes(a: Byte, b: Byte)
    ensures var g := Group(a, b, 0);
      && AllBase64(g)
      && Bytes3(Value(g[0]), Value(g[1]), Value(g[2]), 0)[..2] == [a, b]
      && (b == 0 ==> Bytes3(Value(g[0]), Value(g[1]), 0, 0)[..1] == [a])
  {
    hide Char, Group, Value, IsBase64;
    GroupDecodes(a, b, 0);
    EncoderShifts(a, b, 0);
    ValueOfChar(0);
    assert b == 0 ==> b % 16 * 4 == 0;
    if b == 0 {
      ValueOfChar(b % 16 * 4 + 0 / 64);
    }
  }

  /** Every byte string comes back from its encoding. */
  lemma RoundTrip(x: seq<Byte>)
    ensures Decode(Encode(x)) == x
  {
    hide Encode, Unpadded, Digits, DecodeDigits;
    EncodeShape(x);
    DigitsBefore(Unpadded(x), Pad(|x|));
    assert Encode(x)[..|Unpadded(x)|] == Unpadded(x);
    UnpaddedDecodes(x);
  }

  // ----- Digit by digit -----

  /** Byte j, or zero after the end. */
  function ByteAt(x: seq<Byte>, j: nat): Byte {
    if j < |x| then x[j] else 0
  }

  /** Bits 6i to 6i + 5 of a byte string, most significant first. */
  function SixBits(x: seq<Byte>, i: nat): nat {
    var g := i / 4 * 3;
    match i % 4
    case 0 => ByteAt(x, g) / 4
    case 1 => ByteAt(x, g) % 4 * 16 + ByteAt(x, g + 1) / 16
    case 2 => ByteAt(x, g + 1) % 16 * 4 + ByteAt(x, g + 2) / 64
    case _ => ByteAt(x, g + 2) % 64
  }

  /** The characters of one group, the last ones of which may be replaced by padding. */
  lemma GroupAt(x: seq<Byte>, i: nat)
    requires i < 4
    ensures var g := Group(ByteAt(x, 0), ByteAt(x, 1), ByteAt(x, 2));
      IsBase64(g[i]) && Value(g[i]) == SixBits(x, i)
  {
    hide Group, Char, Value, IsBase64;
    var a, b, c := ByteAt(x, 0), ByteAt(x, 1), ByteAt(x, 2);
    EncoderShifts(a, b, c);
    ValueOfChar(a / 4);
    ValueOfChar(a % 4 * 16 + b / 16);
    ValueOfChar(b % 16 * 4 + c / 64);
    ValueOfChar(c % 64);
    assert i / 4 == 0;
  }

  lemma SixBitsLater(x: seq<Byte>, i: nat)
    requires 4 <= i && 3 <= |x|
    ensures SixBits(x, i) == SixBits(x[3..], i - 4)
  {
    assert (i - 4) % 4 == i % 4 && (i - 4) / 4 * 3 + 3 == i / 4 * 3;
  }

  /** Character i of an encoding is the digit for its six bits, as long as there are any, and then padding. */
  lemma {:induction false} EncodeAt(x: seq<Byte>, i: nat)
    requires i < |Encode(x)|
    ensures var c := Encode(x)[i];
      if 6 * i < 8 * |x| then IsBase64(c) && Value(c) == SixBits(x, i) else c == '='
    decreases |x|
  {
    hide Group, Char, Value, IsBase64, SixBits;
    if |x| > 2 && i >= 4 {
      EncodeAt(x[3..], i - 4);
      SixBitsLater(x, i);
    } else if i < 4 {
      GroupAt(x, i);
    }
  }

  /** The value of digit j, or zero after the last one. */
  function ValueAt(s: string, j: nat): nat {
    if j < |s| && IsBase64(s[j]) then Value(s[j]) else 0
  }

  /** Bits 8j to 8j + 7 of a text, six from each digit. */
  function EightBits(s: string, j: nat): nat {
    var g := j / 3 * 4;
    match j % 3
    case 0 => ValueAt(s, g) * 4 + ValueAt(s, g + 1) / 16
    case 1 => ValueAt(s, g + 1) % 16 * 16 + ValueAt(s, g + 2) / 4
    case _ => ValueAt(s, g + 2) % 4 * 64 + ValueAt(s, g + 3)
  }

  lemma EightBitsLater(s: string, j: nat)
    requires 3 <= j && 4 <= |s|
    ensures EightBits(s, j) == EightBits(s[4..], j - 3)
  {
    hide Value, IsBase64;
    assert (j - 3) % 3 == j % 3 && (j - 3) / 3 * 4 + 4 == j / 3 * 4;
  }

  lemma BytesAt(s: string, j: nat)
    requires AllBase64(s) && j < 3 && 8 * j + 8 <= 6 * |s|
    ensures DecodeDigits(s) != [] && |DecodeDigits(s)| > j && DecodeDigits(s)[j] == EightBits(s, j)
  {
    hide Bytes3, Value, IsBase64;
    var a, b, c, d := ValueAt(s, 0), ValueAt(s, 1), ValueAt(s, 2), ValueAt(s, 3);
    ThreeDigits(a, b, c, d);
    ThreeDigits(a, b, c, 0);
    ThreeDigits(a, b, 0, 0);
    assert j / 3 == 0;
  }

  lemma {:induction false} DecodeDigitsAt(s: string, j: nat)
    requires AllBase64(s)
    ensures |DecodeDigits(s)| == 6 * |s| / 8
    ensures j < |DecodeDigits(s)| ==> DecodeDigits(s)[j] == EightBits(s, j)
    decreases |s|
  {
    hide Bytes3, Value, IsBase64, EightBits;
    if |s| >= 4 {
      DecodeDigitsAt(s[4..], if j >= 3 then j - 3 else 0);
      if j >= 3 {
        EightBitsLater(s, j);
      }
    }
    if j < 3 && j < |DecodeDigits(s)| {
      BytesAt(s, j);
    }
  }

  /** A text decodes to the whole bytes that its leading digits make up. */
  lemma DecodeAt(s: string, j: nat)
    ensures |Decode(s)| == 6 * Digits(s) / 8
    ensures j < |Decode(s)| ==> Decode(s)[j] == EightBits(s[..Digits(s)], j)
  {
    hide DecodeDigits, EightBits, IsBase64, Digits;
    DecodeDigitsAt(s[..Digits(s)], j);
  }

  // ----- Which texts are encodings -----

  /** Whole groups, the last of which may be padded and then has zero bits where bytes are missing. */
  predicate Canonical(s: string) {
    || s == ""
    || (|s| >= 4 && AllBase64(s[..4]) && Canonical(s[4..]))
    || (|s| == 4 && IsBase64(s[0]) && IsBase64(s[1]) && Value(s[1]) % 16 == 0 && s[2] == '=' && s[3] == '=')
    || (|s| == 4 && IsBase64(s[0]) && IsBase64(s[1]) && IsBase64(s[2]) && Value(s[2]) % 4 == 0 && s[3] == '=')
  }

  lemma {:induction false} EncodingIsCanonical(x: seq<Byte>)
    ensures Canonical(Encode(x))
    decreases |x|
  {
    hide Group, IsBase64, Value, Char;
    if |x| > 2 {
      GroupIsBase64(x[0], x[1], x[2]);
      EncodingIsCanonical(x[3..]);
      assert Encode(x)[..4] == Group(x[0], x[1], x[2]) && Encode(x)[4..] == Encode(x[3..]);
    } else if |x| > 0 {
      var b: Byte := if |x| == 2 then x[1] else 0;
      var second: Sextet, third: Sextet := x[0] % 4 * 16 + b / 16, b % 16 * 4;
      GroupIsBase64(x[0], b, 0);
      EncoderShifts(x[0], b, 0);
      ValueOfChar(second);
      ValueOfChar(third);
      assert third % 4 == 0 && (b == 0 ==> second % 16 == 0);
    }
  }

  lemma FourSextets(w: Sextet, x: Sextet, y: Sextet, z: Sextet)
    ensures var a: nat, b: nat, c: nat := w * 4 + x / 16, x % 16 * 16 + y / 4, y % 4 * 64 + z;
      a / 4 == w && a % 4 * 16 + b / 16 == x && b % 16 * 4 + c / 64 == y && c % 64 == z
  {
  }

  /** The bytes that four characters stand for are encoded as those characters. */
  lemma GroupOfDecoded(s: string) returns (a: Byte, b: Byte, c: Byte)
    requires |s| == 4 && AllBase64(s)
    ensures Group(a, b, c) == s
    ensures b == Value(s[1]) % 16 * 16 + Value(s[2]) / 4 && c == Value(s[2]) % 4 * 64 + Value(s[3])
  {
    hide Group, Char, Value, IsBase64;
    var w: nat, x: nat, y: nat, z: nat := Value(s[0]), Value(s[1]), Value(s[2]), Value(s[3]);
    FourSextets(w, x, y, z);
    a, b, c := w * 4 + x / 16, x % 16 * 16 + y / 4, y % 4 * 64 + z;
    EncoderShifts(a, b, c);
    CharOfValue(s[0]);
    CharOfValue(s[1]);
    CharOfValue(s[2]);
    CharOfValue(s[3]);
  }

  lemma {:induction false} CanonicalIsEncoding(s: string) returns (x: seq<Byte>)
    requires Canonical(s)
    ensures Encode(x) == s
    decreases |s|
  {
    hide Group, Value, IsBase64;
    if s == "" {
      x := [];
    } else if AllBase64(s[..4]) && Canonical(s[4..]) {
      var y := CanonicalIsEncoding(s[4..]);
      var a, b, c := GroupOfDecoded(s[..4]);
      x := [a, b, c] + y;
      assert x[3..] == y && s == s[..4] + s[4..];
    } else {
      x := TailIsEncoding(s);
    }
  }

  lemma TailIsEncoding(s: string) returns (x: seq<Byte>)
    requires |s| == 4 && IsBase64(s[0]) && IsBase64(s[1]) && s[3] == '='
    requires if s[2] == '=' then Value(s[1]) % 16 == 0 else IsBase64(s[2]) && Value(s[2]) % 4 == 0
    ensures Encode(x) == s
  {
    hide Group;
    if s[2] == '=' {
      var t := s[..2] + "AA";
      var a, b, c := GroupOfDecoded(t);
      x := [a];
      assert Value('A') == 0 && b == 0 && c == 0;
    } else {
      var t := s[..3] + "A";
      var a, b, c := GroupOfDecoded(t);
      x := [a, b];
      assert Value('A') == 0 && c == 0;
    }
  }

  /** Decoding loses nothing exactly on the canonical texts. */
  lemma ReencodesExactly(s: string)
    ensures Encode(Decode(s)) == s <==> Canonical(s)
  {
    hide Encode, Decode, Canonical;
    EncodingIsCanonical(Decode(s));
    if Canonical(s) {
      var x := CanonicalIsEncoding(s);
      RoundTrip(x);
    }
  }
}
