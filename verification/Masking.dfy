/**
 * Masking of frame payloads (section 5.3 of RFC 6455): word by word with a
 * prepared key that is rotated between calls, against byte by byte.
 */
module Masking {
  import opened Bytes
  import opened Words

  // ----- The specification -----

  /** Byte i is xored with key byte (off + i) modulo 4. */
  function ByteMask(s: seq<Byte>, key: Key, off: nat): (r: seq<Byte>)
    ensures |r| == |s|
  {
    seq(|s|, i requires 0 <= i < |s| => Xor(s[i], key[(off + i) % 4]))
  }

  /** The bits of the mask, repeated from its byte `off` on, say which bits of the data are flipped. */
  predicate Flips(before: seq<Byte>, after: seq<Byte>, mask: seq<Byte>, off: nat)
    requires mask != []
  {
    && |after| == |before|
    && forall i, k | 0 <= i < |before| && 0 <= k < 8 ::
         HasBit(after[i], k) != HasBit(before[i], k) <==> HasBit(mask[(off + i) % |mask|], k)
  }

  lemma ByteMaskFlips(s: seq<Byte>, key: Key, off: nat)
    ensures Flips(s, ByteMask(s, key, off), key, off)
  {
    hide HasBit, Xor;
    var r := ByteMask(s, key, off);
    forall i, k | 0 <= i < |s| && 0 <= k < 8
      ensures HasBit(r[i], k) != HasBit(s[i], k) <==> HasBit(key[(off + i) % 4], k)
    {
      BitwiseAt(s[i], key[(off + i) % 4], k);
    }
  }

  lemma MaskImageFlips(s: seq<Byte>, img: seq<Byte>)
    requires img != []
    ensures Flips(s, MaskImage(s, img), img, 0)
  {
    hide HasBit, Xor;
    var r := MaskImage(s, img);
    forall i, k | 0 <= i < |s| && 0 <= k < 8
      ensures HasBit(r[i], k) != HasBit(s[i], k) <==> HasBit(img[(0 + i) % |img|], k)
    {
      BitwiseAt(s[i], img[i % |img|], k);
    }
  }

  lemma MaskingTwice(s: seq<Byte>, key: Key, off: nat)
    ensures ByteMask(ByteMask(s, key, off), key, off) == s
  {
    forall i | 0 <= i < |s| { XorInvolution(s[i], key[(off + i) % 4]); }
  }

  lemma MaskConcat(s: seq<Byte>, t: seq<Byte>, key: Key, off: nat)
    ensures ByteMask(s + t, key, off) == ByteMask(s, key, off) + ByteMask(t, key, off + |s|)
  {
    assert forall i | 0 <= i < |t| :: (s + t)[|s| + i] == t[i];
  }

  // ----- The prepared key -----

  function PrepareMaskingKey(key: Key, m: Machine): nat {
    var low := Load(key, m);
    if m.wordSize == 8 then Wordwise(Or, ShiftLeft(low, 4, 8), low) else low
  }

  function CircShiftPreparedKey(key: nat, offset: nat, m: Machine): nat
    requires offset < m.wordSize
  {
    var w := m.wordSize;
    if offset == 0 then key
    else if m.littleEndian then
      var temp := ShiftLeft(key, w - offset, w);
      Wordwise(Or, ShiftRight(key, offset), temp)
    else
      var temp := ShiftRight(key, w - offset);
      Wordwise(Or, ShiftLeft(key, offset, w), temp)
  }

  /** Byte j of the prepared key in memory is byte (off + j) modulo 4 of the masking key. */
  predicate Prepared(x: nat, key: Key, off: nat, m: Machine) {
    Fits(x, m.wordSize) && forall j | 0 <= j < m.wordSize :: Image(x, m)[j] == key[(off + j) % 4]
  }

  /** Oring the two shifted halves of a word swaps its digits around. */
  lemma RotateDigits(x: nat, k: nat, w: nat)
    requires Fits(x, w) && 0 < k < w
    ensures var d, a, b := LittleEndian(x, w), ShiftRight(x, k), ShiftLeft(x, w - k, w);
      && LittleEndian(Wordwise(Or, a, b), w) == d[k..] + d[..k] && Fits(Wordwise(Or, a, b), w)
      && LittleEndian(Wordwise(Or, b, a), w) == d[k..] + d[..k] && Fits(Wordwise(Or, b, a), w)
  {
    hide Wordwise, Or, LittleEndian, ShiftRight, ShiftLeft, Fits;
    var d, a, b := LittleEndian(x, w), ShiftRight(x, k), ShiftLeft(x, w - k, w);
    ShiftRightDigits(x, k, w);
    FitsDigits(x, w, k);
    ShiftLeftDigits(x, w - k, w);
    DigitsPrefix(x, w, k);
    assert LittleEndian(a, w) == d[k..] + Zeros(k) && LittleEndian(b, w) == Zeros(w - k) + d[..k];
    OrZero(0);
    WordwiseDigits(Or, a, b, w);
    WordwiseDigits(Or, b, a, w);
    ShiftRightFits(x, k, w);
    WordwiseFits(Or, a, b, w);
    WordwiseFits(Or, b, a, w);
    forall i | 0 <= i < w
      ensures Or(LittleEndian(a, w)[i], LittleEndian(b, w)[i]) == (d[k..] + d[..k])[i] ==
        Or(LittleEndian(b, w)[i], LittleEndian(a, w)[i])
    {
      OrZero((d[k..] + d[..k])[i]);
    }
  }

  lemma {:induction false} ShiftRightFits(x: nat, k: nat, w: nat)
    requires Fits(x, w)
    ensures Fits(ShiftRight(x, k), w)
    decreases k
  {
    if k > 0 {
      FitsLonger(x / 256, w);
      ShiftRightFits(x / 256, k - 1, w);
    }
  }

  lemma {:induction false} FitsLonger(x: nat, w: nat)
    requires if w == 0 then x == 0 else Fits(x, w - 1)
    ensures Fits(x, w)
  {
    if w > 1 {
      FitsLonger(x / 256, w - 1);
    } else if w == 1 {
      assert Fits(x / 256, 0);
    }
  }

  /** The shifts rotate the word's bytes in memory by `offset`, whatever the byte order. */
  lemma CircShiftRotates(x: nat, offset: nat, m: Machine)
    requires offset < m.wordSize && Fits(x, m.wordSize)
    ensures Fits(CircShiftPreparedKey(x, offset, m), m.wordSize)
    ensures Image(CircShiftPreparedKey(x, offset, m), m) == Image(x, m)[offset..] + Image(x, m)[..offset]
  {
    hide Wordwise, Or, LittleEndian, ShiftRight, ShiftLeft, Fits;
    var w, d := m.wordSize, LittleEndian(x, m.wordSize);
    if offset > 0 {
      var k := if m.littleEndian then offset else w - offset;
      RotateDigits(x, k, w);
      assert LittleEndian(CircShiftPreparedKey(x, offset, m), w) == d[k..] + d[..k];
      if !m.littleEndian {
        assert Reverse(d[k..] + d[..k]) == Reverse(d)[offset..] + Reverse(d)[..offset];
      }
    }
  }

  /** The prepared key repeats the masking key from its first byte on. */
  lemma PreparedAtZero(key: Key, m: Machine)
    requires IsMachine(m)
    ensures Prepared(PrepareMaskingKey(key, m), key, 0, m)
  {
    hide Wordwise, Or, LittleEndian, ShiftLeft, Fits, Load;
    var four := m.(wordSize := 4);
    var low := Load(key, m);
    assert Load(key, m) == Load(key, four) by { LoadSame(key, m, four); }
    ImageOfLoad(key, four);
    if m.wordSize == 8 {
      var d, high := LittleEndian(low, 4), ShiftLeft(low, 4, 8);
      ShiftLeftDigits(low, 4, 8);
      FitsDigits(low, 4, 4);
      OrZero(0);
      WordwiseDigits(Or, high, low, 8);
      FitsEight(low);
      WordwiseFits(Or, high, low, 8);
      forall i | 0 <= i < 8
        ensures Or((Zeros(4) + d)[i], (d + Zeros(4))[i]) == (d + d)[i]
      {
        OrZero((d + d)[i]);
      }
      assert LittleEndian(PrepareMaskingKey(key, m), 8) == d + d;
      assert Reverse(d + d) == Reverse(d) + Reverse(d);
      assert Image(PrepareMaskingKey(key, m), m) == key + key;
    }
  }

  lemma LoadSame(s: seq<Byte>, m: Machine, n: Machine)
    requires m.littleEndian == n.littleEndian
    ensures Load(s, m) == Load(s, n)
  {
  }

  lemma FitsEight(x: nat)
    requires Fits(x, 4)
    ensures Fits(x, 8)
  {
    FitsLonger(x, 5);
    FitsLonger(x, 6);
    FitsLonger(x, 7);
    FitsLonger(x, 8);
  }

  /** Rotating a key prepared for `off` by n bytes prepares it for off + n. */
  lemma PreparedShift(x: nat, key: Key, off: nat, n: nat, m: Machine)
    requires IsMachine(m) && n < m.wordSize && Prepared(x, key, off, m)
    ensures Prepared(CircShiftPreparedKey(x, n, m), key, off + n, m)
  {
    hide CircShiftPreparedKey, Image, Fits;
    CircShiftRotates(x, n, m);
    var img := Image(x, m);
    forall j | 0 <= j < m.wordSize
      ensures (img[n..] + img[..n])[j] == key[(off + n + j) % 4]
    {
      if j >= m.wordSize - n {
        assert (off + n + j) % 4 == (off + (n + j - m.wordSize)) % 4;
      }
    }
  }

  /** The offset matters modulo 4 only, and determines the prepared key. */
  lemma PreparedUnique(x: nat, y: nat, key: Key, off: nat, off': nat, m: Machine)
    requires Prepared(x, key, off, m) && Prepared(y, key, off', m) && off % 4 == off' % 4
    ensures x == y
  {
    hide Image, Fits, Load;
    LoadOfImage(x, m);
    LoadOfImage(y, m);
    forall j | 0 <= j < m.wordSize
      ensures Image(x, m)[j] == Image(y, m)[j]
    {
      SameRemainder(off, off', j);
    }
    assert Image(x, m) == Image(y, m);
  }

  // ----- The masking functions -----

  /** Mask with the bytes of a word, over and over. */
  function MaskImage(s: seq<Byte>, img: seq<Byte>): (r: seq<Byte>)
    requires |img| > 0
    ensures |r| == |s|
  {
    seq(|s|, i requires 0 <= i < |s| => Xor(s[i], img[i % |img|]))
  }

  lemma PreparedMasks(s: seq<Byte>, x: nat, key: Key, off: nat, m: Machine)
    requires IsMachine(m) && Prepared(x, key, off, m)
    ensures MaskImage(s, Image(x, m)) == ByteMask(s, key, off)
  {
    hide Xor, Image, Fits;
    forall i | 0 <= i < |s|
      ensures Image(x, m)[i % m.wordSize] == key[(off + i) % 4]
    {
      ModMod(off, i, m.wordSize);
    }
  }

  lemma ModMod(off: nat, i: nat, w: nat)
    requires w == 4 || w == 8
    ensures (off + i % w) % 4 == (off + i) % 4
  {
    PlusFours(off + i % w, if w == 4 then i / 4 else 2 * (i / 8));
  }

  lemma PlusFours(x: nat, k: nat)
    ensures (x + 4 * k) % 4 == x % 4
  {
  }

  lemma ModStep(at: nat, w: nat, j: nat)
    requires (w == 4 || w == 8) && at % w == 0 && j < w
    ensures (at + j) % w == j && (at + w) % w == 0
  {
  }

  lemma XorZero()
    ensures Xor(0, 0) == 0
  {
    XorBitsZero(8);
  }

  lemma {:induction false} XorBitsZero(n: nat)
    ensures Pow2(n) > 0 && XorBits(0, 0, n) == 0
  {
    if n > 0 {
      XorBitsZero(n - 1);
    }
  }

  /** output_word[i] = input_word[i] ^ key: load, xor, store. */
  method MaskWord(input: array<Byte>, output: array<Byte>, at: nat, key: nat, m: Machine)
    requires IsMachine(m) && at + m.wordSize <= input.Length && at + m.wordSize <= output.Length
    modifies output
    ensures forall j | 0 <= j < m.wordSize :: output[at + j] == Xor(old(input[at + j]), Image(key, m)[j])
    ensures forall k | 0 <= k < output.Length && !(at <= k < at + m.wordSize) :: output[k] == old(output[k])
  {
    hide Wordwise, Load, Image, Xor;
    var word := Load(input[at..at + m.wordSize], m);
    ghost var loaded := input[at..at + m.wordSize];
    var masked := Image(Wordwise(Xor, word, key), m);
    XorZero();
    ImageOfLoad(loaded, m);
    WordwiseImage(Xor, word, key, m);
    forall j | 0 <= j < m.wordSize {
      output[at + j] := masked[j];
    }
  }

  /** Mask the whole words that make up the first `bytes` bytes. */
  method MaskWords(input: array<Byte>, output: array<Byte>, bytes: nat, key: nat, m: Machine)
    requires IsMachine(m) && bytes % m.wordSize == 0 && bytes <= input.Length && bytes <= output.Length
    modifies output
    ensures forall k | 0 <= k < bytes :: output[k] == Xor(old(input[k]), Image(key, m)[k % m.wordSize])
    ensures forall k | bytes <= k < output.Length :: output[k] == old(output[k])
  {
    hide Xor, Image;
    var w, at := m.wordSize, 0;
    while at < bytes
      invariant at <= bytes && at % w == 0
      invariant forall k | 0 <= k < at :: output[k] == Xor(old(input[k]), Image(key, m)[k % w])
      invariant forall k | at <= k < output.Length :: output[k] == old(output[k])
      invariant forall k | at <= k < input.Length :: input[k] == old(input[k])
    {
      NextWord(at, bytes, w);
      MaskWord(input, output, at, key, m);
      forall k | at <= k < at + w
        ensures output[k] == Xor(old(input[k]), Image(key, m)[k % w])
      {
        ModStep(at, w, k - at);
        assert output[at + (k - at)] == Xor(old(input[at + (k - at)]), Image(key, m)[k - at]);
      }
      at := at + w;
    }
  }

  lemma NextWord(at: nat, bytes: nat, w: nat)
    requires (w == 4 || w == 8) && at % w == 0 && bytes % w == 0 && at < bytes
    ensures at + w <= bytes && (at + w) % w == 0
  {
    if w == 4 {
      NextMultiple(at / 4, bytes / 4, 4);
    } else {
      NextMultiple(at / 8, bytes / 8, 8);
    }
  }

  lemma NextMultiple(i: nat, n: nat, w: nat)
    requires (w == 4 || w == 8) && w * i < w * n
    ensures w * i + w <= w * n && (w * i + w) % w == 0
  {
    assert w * i + w == w * (i + 1);
    if w == 4 {
      assert 4 * (i + 1) % 4 == 0;
    } else {
      assert 8 * (i + 1) % 8 == 0;
    }
  }

  /** word_mask_circ: whole words, then the remaining bytes, then the rotated key. */
  method WordMaskCirc(input: array<Byte>, output: array<Byte>, length: nat, preparedKey: nat, m: Machine)
    returns (next: nat)
    requires IsMachine(m) && length <= input.Length && length <= output.Length
    modifies output
    ensures output[..length] == MaskImage(old(input[..length]), Image(preparedKey, m))
    ensures Flips(old(input[..length]), output[..length], Image(preparedKey, m), 0)
    ensures output[length..] == old(output[length..])
    ensures next == CircShiftPreparedKey(preparedKey, length % m.wordSize, m)
  {
    hide Xor, Image, CircShiftPreparedKey, Flips;
    var w := m.wordSize;
    var n := length / w;
    var l := length - n * w;
    WholeWords(length, m);
    MaskWords(input, output, n * w, preparedKey, m);
    var start := length - l;
    ghost var img := Image(preparedKey, m);
    for i := 0 to l
      invariant forall k | 0 <= k < start + i :: output[k] == Xor(old(input[k]), img[k % w])
      invariant forall k | start + i <= k < output.Length :: output[k] == old(output[k])
      invariant forall k | start + i <= k < input.Length :: input[k] == old(input[k])
    {
      ModStep(start, w, i);
      output[start + i] := Xor(input[start + i], Image(preparedKey, m)[i]);
    }
    next := CircShiftPreparedKey(preparedKey, l, m);
    MaskImageFlips(old(input[..length]), img);
  }

  lemma WholeWords(length: nat, m: Machine)
    requires IsMachine(m)
    ensures length / m.wordSize * m.wordSize <= length
    ensures length - length / m.wordSize * m.wordSize == length % m.wordSize
    ensures length / m.wordSize * m.wordSize % m.wordSize == 0
  {
    if m.wordSize == 4 { } else { }
  }

  /** byte_mask_circ: only the low four bytes of the prepared key are used. */
  method ByteMaskCirc(input: array<Byte>, output: array<Byte>, length: nat, preparedKey: nat, m: Machine)
    returns (next: nat)
    requires IsMachine(m) && length <= input.Length && length <= output.Length
    modifies output
    ensures output[..length] == MaskImage(old(input[..length]), Image(preparedKey, m.(wordSize := 4)))
    ensures Flips(old(input[..length]), output[..length], Image(preparedKey, m.(wordSize := 4)), 0)
    ensures output[length..] == old(output[length..])
    ensures next == CircShiftPreparedKey(preparedKey, length % 4, m)
  {
    hide Xor, Image, CircShiftPreparedKey, Flips;
    var key := Image(preparedKey, m.(wordSize := 4));
    for i := 0 to length
      invariant forall k | 0 <= k < i :: output[k] == Xor(old(input[k]), key[k % 4])
      invariant forall k | i <= k < output.Length :: output[k] == old(output[k])
      invariant forall k | i <= k < input.Length :: input[k] == old(input[k])
    {
      output[i] := Xor(input[i], key[i % 4]);
    }
    next := CircShiftPreparedKey(preparedKey, length % 4, m);
    MaskImageFlips(old(input[..length]), key);
  }

  /** word_mask_exact: whole words with the prepared key, the tail with the key itself. */
  method WordMaskExact(input: array<Byte>, output: array<Byte>, length: nat, key: Key, m: Machine)
    requires IsMachine(m) && length <= input.Length && length <= output.Length
    modifies output
    ensures output[..length] == ByteMask(old(input[..length]), key, 0)
    ensures Flips(old(input[..length]), output[..length], key, 0)
    ensures output[length..] == old(output[length..])
  {
    hide Xor, Image, PrepareMaskingKey, Flips;
    var preparedKey := PrepareMaskingKey(key, m);
    var w := m.wordSize;
    var n := length / w;
    WholeWords(length, m);
    MaskWords(input, output, n * w, preparedKey, m);
    var start := n * w;
    forall k | 0 <= k < start
      ensures output[k] == Xor(old(input[k]), key[k % 4])
    {
      PreparedAtZero(key, m);
      ModMod(0, k, w);
    }
    ByteMaskFlips(old(input[..length]), key, 0);
    for i := start to length
      invariant forall k | 0 <= k < i :: output[k] == Xor(old(input[k]), key[k % 4])
      invariant forall k | i <= k < output.Length :: output[k] == old(output[k])
      invariant forall k | i <= k < input.Length :: input[k] == old(input[k])
    {
      output[i] := Xor(input[i], key[i % 4]);
    }
  }

  lemma NextKeyIndex(n: nat)
    ensures (n % 4 + 1) % 4 == (n + 1) % 4
  {
    PlusFours(n % 4 + 1, n / 4);
  }

  /** byte_mask: the simple loop, from any key offset. */
  method ByteMaskLoop(input: array<Byte>, output: array<Byte>, length: nat, key: Key, keyOffset: nat)
    requires length <= input.Length && length <= output.Length
    modifies output
    ensures output[..length] == ByteMask(old(input[..length]), key, keyOffset)
    ensures Flips(old(input[..length]), output[..length], key, keyOffset)
    ensures output[length..] == old(output[length..])
  {
    hide Xor, Flips;
    var keyIndex := keyOffset % 4;
    ByteMaskFlips(old(input[..length]), key, keyOffset);
    for i := 0 to length
      invariant keyIndex == (keyOffset + i) % 4
      invariant forall k | 0 <= k < i :: output[k] == Xor(old(input[k]), key[(keyOffset + k) % 4])
      invariant forall k | i <= k < output.Length :: output[k] == old(output[k])
      invariant forall k | i <= k < input.Length :: input[k] == old(input[k])
    {
      output[i] := Xor(input[i], key[keyIndex]);
      NextKeyIndex(keyOffset + i);
      keyIndex := keyIndex + 1;
      keyIndex := keyIndex % 4;
    }
  }

  // ----- Streaming -----

  lemma PreparedModulo(x: nat, key: Key, off: nat, off': nat, m: Machine)
    requires Prepared(x, key, off, m) && off % 4 == off' % 4
    ensures Prepared(x, key, off', m)
  {
    hide Image, Fits;
    forall j | 0 <= j < m.wordSize
      ensures Image(x, m)[j] == key[(off' + j) % 4]
    {
      SameRemainder(off, off', j);
    }
  }

  lemma SameRemainder(a: nat, b: nat, j: nat)
    requires a % 4 == b % 4
    ensures (a + j) % 4 == (b + j) % 4
  {
    PlusFours(a % 4 + j, a / 4);
    PlusFours(b % 4 + j, b / 4);
  }

  /** One word-wise call masks its chunk and hands over a key prepared for the next one. */
  lemma WordStep(s: seq<Byte>, x: nat, key: Key, off: nat, m: Machine)
    requires IsMachine(m) && Prepared(x, key, off, m)
    ensures MaskImage(s, Image(x, m)) == ByteMask(s, key, off)
    ensures Prepared(CircShiftPreparedKey(x, |s| % m.wordSize, m), key, off + |s|, m)
  {
    hide Image, CircShiftPreparedKey, Prepared, MaskImage, ByteMask;
    PreparedMasks(s, x, key, off, m);
    PreparedShift(x, key, off, |s| % m.wordSize, m);
    ModMod(off, |s|, m.wordSize);
    PreparedModulo(CircShiftPreparedKey(x, |s| % m.wordSize, m), key, off + |s| % m.wordSize, off + |s|, m);
  }

  /** Truncating the prepared key to 32 bits keeps what it says about the key. */
  lemma LowBytes(x: nat, key: Key, off: nat, m: Machine)
    requires IsMachine(m) && Prepared(x, key, off, m)
    ensures forall j | 0 <= j < 4 :: Image(x, m.(wordSize := 4))[j] == key[(off + j) % 4]
  {
    hide Fits, LittleEndian;
    var w := m.wordSize;
    DigitsPrefix(x, w, 4);
    assert LittleEndian(x, w)[..4] == LittleEndian(x, 4);
    forall j | 0 <= j < 4
      ensures Image(x, m.(wordSize := 4))[j] == key[(off + j) % 4]
    {
      if m.littleEndian {
        assert Image(x, m)[j] == LittleEndian(x, w)[..4][j];
      } else {
        assert Image(x, m)[w - 4 + j] == LittleEndian(x, w)[..4][3 - j];
        assert (off + (w - 4 + j)) % 4 == (off + j) % 4;
      }
    }
  }

  lemma FourBytesMask(s: seq<Byte>, img: seq<Byte>, key: Key, off: nat)
    requires |img| == 4 && forall j | 0 <= j < 4 :: img[j] == key[(off + j) % 4]
    ensures MaskImage(s, img) == ByteMask(s, key, off)
  {
    hide Xor;
    forall i | 0 <= i < |s|
      ensures img[i % 4] == key[(off + i) % 4]
    {
      PlusFours(off + i % 4, i / 4);
      var j := i % 4;
      assert off + j + 4 * (i / 4) == off + i;
      assert img[j] == key[(off + j) % 4];
    }
  }

  /** One byte-wise call does the same. */
  lemma ByteStep(s: seq<Byte>, x: nat, key: Key, off: nat, m: Machine)
    requires IsMachine(m) && Prepared(x, key, off, m)
    ensures MaskImage(s, Image(x, m.(wordSize := 4))) == ByteMask(s, key, off)
    ensures Prepared(CircShiftPreparedKey(x, |s| % 4, m), key, off + |s|, m)
  {
    hide Image, CircShiftPreparedKey, Prepared, MaskImage, ByteMask;
    LowBytes(x, key, off, m);
    FourBytesMask(s, Image(x, m.(wordSize := 4)), key, off);
    PreparedShift(x, key, off, |s| % 4, m);
    ModMod(off, |s|, 4);
    PreparedModulo(CircShiftPreparedKey(x, |s| % 4, m), key, off + |s| % 4, off + |s|, m);
  }

  /** On a prepared key the two give the same bytes and the same next key, so they may be mixed. */
  lemma WordAndByteAgree(s: seq<Byte>, x: nat, key: Key, off: nat, m: Machine)
    requires IsMachine(m) && Prepared(x, key, off, m)
    ensures MaskImage(s, Image(x, m)) == MaskImage(s, Image(x, m.(wordSize := 4)))
    ensures CircShiftPreparedKey(x, |s| % m.wordSize, m) == CircShiftPreparedKey(x, |s| % 4, m)
  {
    hide Image, CircShiftPreparedKey, Prepared, MaskImage, ByteMask;
    WordStep(s, x, key, off, m);
    ByteStep(s, x, key, off, m);
    PreparedUnique(
      CircShiftPreparedKey(x, |s| % m.wordSize, m), CircShiftPreparedKey(x, |s| % 4, m), key, off + |s|, off + |s|, m);
  }

  /**
   * A message masked chunk by chunk, word-wise or byte-wise as `wordwise` says
   * for each chunk, is the message masked byte by byte in one go.
   */
  method MaskStream(chunks: seq<seq<Byte>>, wordwise: seq<bool>, key: Key, m: Machine) returns (out: seq<Byte>)
    requires IsMachine(m) && |wordwise| == |chunks|
    ensures out == ByteMask(Concat(chunks), key, 0) && Flips(Concat(chunks), out, key, 0)
  {
    hide Image, CircShiftPreparedKey, PrepareMaskingKey, Prepared, MaskImage, ByteMask, Flips;
    out := [];
    assert ByteMask([], key, 0) == [];
    var prepared := PrepareMaskingKey(key, m);
    PreparedAtZero(key, m);
    for i := 0 to |chunks|
      invariant out == ByteMask(Concat(chunks[..i]), key, 0)
      invariant Prepared(prepared, key, |Concat(chunks[..i])|, m)
    {
      ghost var done := Concat(chunks[..i]);
      ConcatOneMore(chunks, i);
      MaskConcat(done, chunks[i], key, 0);
      var chunk, n := chunks[i], |chunks[i]|;
      var buf := new Byte[n](k requires 0 <= k < n => chunk[k]);
      assert buf[..n] == chunk && buf[..] == buf[..n];
      if wordwise[i] {
        WordStep(chunk, prepared, key, |done|, m);
        prepared := WordMaskCirc(buf, buf, n, prepared, m);
      } else {
        ByteStep(chunk, prepared, key, |done|, m);
        prepared := ByteMaskCirc(buf, buf, n, prepared, m);
      }
      assert buf[..] == buf[..n];
      out := out + buf[..];
    }
    assert chunks[..|chunks|] == chunks;
    ByteMaskFlips(Concat(chunks), key, 0);
  }
}
