/**
 * The validator accepts exactly UTF-8, and decodes each character rightly.
 */
module Utf8Validation {
  import opened Arithmetic
  import opened Bytes
  import opened Utf8

  // ----- RFC 3629 -----

  predicate Tail(b: Byte) {
    0x80 <= b <= 0xbf
  }

  /** One UTF8-char of section 4: no overlong form, no surrogate, nothing above U+10FFFF. */
  predicate Character(s: seq<Byte>) {
    match |s|
    case 1 => s[0] <= 0x7f
    case 2 => 0xc2 <= s[0] <= 0xdf && Tail(s[1])
    case 3 =>
      && Tail(s[2])
      && ( || (s[0] == 0xe0 && 0xa0 <= s[1] <= 0xbf)
           || (0xe1 <= s[0] <= 0xec && Tail(s[1]))
           || (s[0] == 0xed && 0x80 <= s[1] <= 0x9f)
           || (0xee <= s[0] <= 0xef && Tail(s[1])))
    case 4 =>
      && Tail(s[2]) && Tail(s[3])
      && ( || (s[0] == 0xf0 && 0x90 <= s[1] <= 0xbf)
           || (0xf1 <= s[0] <= 0xf3 && Tail(s[1]))
           || (s[0] == 0xf4 && 0x80 <= s[1] <= 0x8f))
    case _ => false
  }

  predicate Scalar(cp: nat) {
    cp <= 0x10ffff && !(0xd800 <= cp <= 0xdfff)
  }

  /** Section 3: the bytes of a code point. */
  function Encode(cp: nat): seq<Byte>
    requires Scalar(cp)
  {
    if cp < 0x80 then [cp]
    else if cp < 0x800 then [0xc0 + cp / 64, 0x80 + cp % 64]
    else if cp < 0x10000 then [0xe0 + cp / 4096, 0x80 + cp / 64 % 64, 0x80 + cp % 64]
    else [0xf0 + cp / 262144, 0x80 + cp / 4096 % 64, 0x80 + cp / 64 % 64, 0x80 + cp % 64]
  }

  predicate Characters(parts: seq<seq<Byte>>) {
    forall i | 0 <= i < |parts| :: Character(parts[i])
  }

  /** A UTF-8 string is a concatenation of characters. */
  ghost predicate IsUtf8(s: seq<Byte>) {
    exists parts :: Characters(parts) && Concat(parts) == s
  }

  /** The grammar of section 4 is exactly the range of the encoding of section 3. */
  lemma CharacterIsEncoding(s: seq<Byte>)
    ensures Character(s) <==> exists cp: nat | Scalar(cp) :: Encode(cp) == s
  {
    if Character(s) {
      DecodesCharacter(s, 0);
      assert Encode(Run(Decoder(ACCEPT, 0), s).codep) == s;
    }
    forall cp: nat | Scalar(cp) && Encode(cp) == s
      ensures Character(s)
    {
      EncodingIsCharacter(cp);
    }
  }

  lemma EncodingIsCharacter(cp: nat)
    requires Scalar(cp)
    ensures Character(Encode(cp))
  {
    hide Character;
    if cp < 0x80 {
      Character1(cp);
    } else if cp < 0x800 {
      Character2(cp / 64, cp % 64);
    } else if cp < 0x10000 {
      Sextets(cp);
      Character3(cp / 4096, cp / 64 % 64, cp % 64);
    } else {
      Sextets(cp);
      Sextets(cp / 64);
      Parts4(cp, cp / 262144, cp / 4096 % 64, cp / 64 % 64, cp % 64);
      Character4(cp / 262144, cp / 4096 % 64, cp / 64 % 64, cp % 64);
    }
  }

  lemma Sextets(cp: nat)
    ensures cp / 64 / 64 == cp / 4096
    ensures cp == cp / 4096 * 4096 + cp / 64 % 64 * 64 + cp % 64
  {
    var n := cp / 64;
    assert cp == n * 64 + cp % 64 && n == n / 64 * 64 + n % 64;
  }

  lemma Parts4(cp: nat, a: nat, b: nat, c: nat, d: nat)
    requires 0x10000 <= cp <= 0x10ffff && a == cp / 262144 && b == cp / 4096 % 64
    requires c < 64 && d < 64 && cp == cp / 4096 * 4096 + c * 64 + d
    ensures a <= 4 && (a == 0 ==> b >= 16) && (a == 4 ==> b < 16)
  {
    var n := cp / 4096;
    assert n / 64 == a && n == a * 64 + b;
  }

  lemma Character1(a: nat)
    requires a < 0x80
    ensures Character([a])
  {
  }

  lemma Character2(a: nat, b: nat)
    requires 2 <= a < 32 && b < 64
    ensures Character([0xc0 + a, 0x80 + b])
  {
  }

  lemma Character3(a: nat, b: nat, c: nat)
    requires a < 16 && b < 64 && c < 64 && (a == 0 ==> b >= 32) && (a == 13 ==> b < 32)
    ensures Character([0xe0 + a, 0x80 + b, 0x80 + c])
  {
  }

  lemma Character4(a: nat, b: nat, c: nat, d: nat)
    requires a <= 4 && b < 64 && c < 64 && d < 64 && (a == 0 ==> b >= 16) && (a == 4 ==> b < 16)
    ensures Character([0xf0 + a, 0x80 + b, 0x80 + c, 0x80 + d])
  {
  }

  // ----- What the automaton does -----

  lemma Step(d: Decoder, b: Byte)
    requires d.state < 9
    ensures DecodeByte(d, b).state == Transition(d.state, Class(b))
    ensures DecodeByte(d, b).codep ==
      if d.state == ACCEPT then LeadBits(Class(b), b) else b % 64 + d.codep * 64 % TWO_32
  {
    hide Utf8d;
    ClassIs(b);
    TransitionIs(d.state, Class(b));
  }

  lemma {:induction false} RunAppend(d: Decoder, s: seq<Byte>, t: seq<Byte>)
    requires d.state < 9
    ensures Run(d, s + t) == Run(Run(d, s), t)
    decreases |s|
  {
    hide DecodeByte;
    if s == [] {
      assert s + t == t;
    } else {
      assert (s + t)[1..] == s[1..] + t;
      RunAppend(DecodeByte(d, s[0]), s[1..], t);
    }
  }

  lemma {:induction false} RejectAbsorbs(d: Decoder, s: seq<Byte>)
    requires d.state == REJECT
    ensures Run(d, s).state == REJECT
    decreases |s|
  {
    hide DecodeByte;
    if s != [] {
      Step(d, s[0]);
      RejectAbsorbs(DecodeByte(d, s[0]), s[1..]);
    }
  }

  lemma RunCons(d: Decoder, b: Byte, t: seq<Byte>)
    requires d.state < 9
    ensures Run(d, [b] + t) == Run(DecodeByte(d, b), t)
  {
    hide DecodeByte;
    assert ([b] + t)[1..] == t;
  }

  lemma Run1(d: Decoder, b: Byte)
    requires d.state < 9
    ensures Run(d, [b]) == DecodeByte(d, b)
  {
    hide DecodeByte;
    RunCons(d, b, []);
    assert [b] + [] == [b];
  }

  lemma Run2(d: Decoder, b: Byte, c: Byte)
    requires d.state < 9
    ensures Run(d, [b, c]) == DecodeByte(DecodeByte(d, b), c)
  {
    hide DecodeByte;
    RunCons(d, b, [c]);
    Run1(DecodeByte(d, b), c);
    assert [b] + [c] == [b, c];
  }

  /** What is left of a character after its lead byte: how the automaton gathers it. */
  lemma Gather1(d: Decoder, b: Byte)
    requires d.state == 2 && Tail(b) && d.codep < 0x8000
    ensures Run(d, [b]) == Decoder(ACCEPT, Shift6(d.codep, b % 64))
  {
    hide DecodeByte, Run;
    Step(d, b);
    Run1(d, b);
  }

  lemma Gather2(d: Decoder, b: Byte, c: Byte)
    requires 3 <= d.state <= 5 && Tail(b) && Tail(c) && d.codep < 0x8000
    requires (d.state == 4 ==> b >= 0xa0) && (d.state == 5 ==> b <= 0x9f)
    ensures Run(d, [b, c]) == Decoder(ACCEPT, Shift6(Shift6(d.codep, b % 64), c % 64))
  {
    hide DecodeByte, Run;
    Step(d, b);
    Step(DecodeByte(d, b), c);
    Run2(d, b, c);
  }

  lemma Gather3(d: Decoder, a: Byte, b: Byte, c: Byte)
    requires 6 <= d.state <= 8 && Tail(a) && Tail(b) && Tail(c) && d.codep < 16
    requires (d.state == 6 ==> a >= 0x90) && (d.state == 8 ==> a <= 0x8f)
    ensures Run(d, [a, b, c]) == Decoder(ACCEPT, Shift6(Shift6(Shift6(d.codep, a % 64), b % 64), c % 64))
  {
    hide DecodeByte, Run;
    Step(d, a);
    var e := DecodeByte(d, a);
    assert e == Decoder(3, Shift6(d.codep, a % 64));
    RunCons(d, a, [b, c]);
    assert [a] + [b, c] == [a, b, c];
    Gather2(e, b, c);
  }

  function Shift6(high: nat, low: nat): nat {
    high * 64 + low
  }

  /** The code point a character stands for, its payload bits in order. */
  function Value(s: seq<Byte>): nat
    requires Character(s)
  {
    match |s|
    case 1 => s[0]
    case 2 => Shift6(s[0] % 32, s[1] % 64)
    case 3 => Shift6(Shift6(s[0] % 16, s[1] % 64), s[2] % 64)
    case _ => Shift6(Shift6(Shift6(s[0] % 8, s[1] % 64), s[2] % 64), s[3] % 64)
  }

  lemma ShortLead(s: seq<Byte>, d: Decoder)
    requires Character(s) && d.state == ACCEPT && |s| <= 2
    ensures DecodeByte(d, s[0]) == if |s| == 1 then Decoder(ACCEPT, s[0]) else Decoder(2, s[0] % 32)
  {
    hide DecodeByte;
    Step(d, s[0]);
  }

  lemma ThreeByteLead(s: seq<Byte>, d: Decoder)
    requires Character(s) && d.state == ACCEPT && |s| == 3
    ensures DecodeByte(d, s[0]) == Decoder(if s[0] == 0xe0 then 4 else if s[0] == 0xed then 5 else 3, s[0] % 16)
  {
    hide DecodeByte;
    Step(d, s[0]);
  }

  lemma FourByteLead(s: seq<Byte>, d: Decoder)
    requires Character(s) && d.state == ACCEPT && |s| == 4
    ensures DecodeByte(d, s[0]) == Decoder(if s[0] == 0xf0 then 6 else if s[0] == 0xf4 then 8 else 7, s[0] % 8)
  {
    hide DecodeByte;
    Step(d, s[0]);
  }

  lemma Gathers(s: seq<Byte>, junk: nat)
    requires Character(s)
    ensures Run(Decoder(ACCEPT, junk), s) == Decoder(ACCEPT, Value(s))
  {
    hide DecodeByte, Run;
    var d0 := Decoder(ACCEPT, junk);
    RunCons(d0, s[0], s[1..]);
    assert [s[0]] + s[1..] == s;
    var d := DecodeByte(d0, s[0]);
    if |s| == 1 {
      ShortLead(s, d0);
      Run1(d0, s[0]);
      assert s == [s[0]];
    } else if |s| == 2 {
      ShortLead(s, d0);
      assert s[1..] == [s[1]];
      Gather1(d, s[1]);
    } else if |s| == 3 {
      ThreeByteLead(s, d0);
      assert s[1..] == [s[1], s[2]];
      Gather2(d, s[1], s[2]);
    } else {
      FourByteLead(s, d0);
      assert s[1..] == [s[1], s[2], s[3]];
      Gather3(d, s[1], s[2], s[3]);
    }
  }

  lemma Encodes(s: seq<Byte>)
    requires Character(s)
    ensures Scalar(Value(s)) && Encode(Value(s)) == s
  {
    if |s| == 2 {
      Encodes2(s[0], s[1]);
      assert s == [s[0], s[1]];
    } else if |s| == 3 {
      Encodes3(s[0], s[1], s[2]);
      assert s == [s[0], s[1], s[2]];
    } else if |s| == 4 {
      Encodes4(s[0], s[1], s[2], s[3]);
      assert s == [s[0], s[1], s[2], s[3]];
    }
  }

  lemma Encodes2(a: Byte, b: Byte)
    requires Character([a, b])
    ensures var v := Shift6(a % 32, b % 64); Scalar(v) && Encode(v) == [a, b]
  {
  }

  lemma Encodes3(a: Byte, b: Byte, c: Byte)
    requires Character([a, b, c])
    ensures var v := Shift6(Shift6(a % 16, b % 64), c % 64); Scalar(v) && Encode(v) == [a, b, c]
  {
    Digits3(a % 16, b % 64, c % 64);
  }

  lemma Encodes4(a: Byte, b: Byte, c: Byte, d: Byte)
    requires Character([a, b, c, d])
    ensures var v := Shift6(Shift6(Shift6(a % 8, b % 64), c % 64), d % 64); Scalar(v) && Encode(v) == [a, b, c, d]
  {
    hide Shift6, Encode;
    Lead4(a, b, c, d);
    Digits4(a % 8, b % 64, c % 64, d % 64);
    InPlanes(a % 8, b % 64, c % 64, d % 64);
    EncodeDigits4(Shift6(Shift6(Shift6(a % 8, b % 64), c % 64), d % 64), a % 8, b % 64, c % 64, d % 64);
  }

  lemma InPlanes(a: nat, b: nat, c: nat, d: nat)
    requires a < 5 && b < 64 && c < 64 && d < 64 && (a == 0 ==> b >= 16) && (a == 4 ==> b < 16)
    ensures 0x10000 <= Shift6(Shift6(Shift6(a, b), c), d) <= 0x10ffff
  {
  }

  lemma EncodeDigits4(v: nat, a: nat, b: nat, c: nat, d: nat)
    requires 0x10000 <= v <= 0x10ffff
    requires v / 262144 == a && v / 4096 % 64 == b && v / 64 % 64 == c && v % 64 == d
    ensures Encode(v) == [0xf0 + a, 0x80 + b, 0x80 + c, 0x80 + d]
  {
  }

  lemma Lead4(a: Byte, b: Byte, c: Byte, d: Byte)
    requires Character([a, b, c, d])
    ensures a == 0xf0 + a % 8 && b == 0x80 + b % 64 && c == 0x80 + c % 64 && d == 0x80 + d % 64
    ensures a % 8 < 5 && (a % 8 == 0 ==> b % 64 >= 16) && (a % 8 == 4 ==> b % 64 < 16)
  {
  }

  lemma Digits3(a: nat, b: nat, c: nat)
    requires b < 64 && c < 64
    ensures var v := Shift6(Shift6(a, b), c); v / 4096 == a && v / 64 % 64 == b && v % 64 == c
  {
    var v := (a * 64 + b) * 64 + c;
    assert v / 64 == a * 64 + b;
  }

  lemma Digits4(a: nat, b: nat, c: nat, d: nat)
    requires b < 64 && c < 64 && d < 64
    ensures var v := Shift6(Shift6(Shift6(a, b), c), d);
      v / 262144 == a && v / 4096 % 64 == b && v / 64 % 64 == c && v % 64 == d
  {
    FourDigits(a, b, c, d);
  }

  /** A whole character leads from accept back to accept, with its code point decoded. */
  lemma DecodesCharacter(s: seq<Byte>, junk: nat)
    requires Character(s)
    ensures var d := Run(Decoder(ACCEPT, junk), s); d.state == ACCEPT && Scalar(d.codep) && Encode(d.codep) == s
  {
    hide Run, Encode, Scalar, Value;
    Gathers(s, junk);
    Encodes(s);
  }

  // ----- Acceptance -----

  /** The bytes a non-rejecting state still waits for. */
  predicate Completes(state: nat, s: seq<Byte>) {
    match state
    case 0 => s == []
    case 2 => |s| == 1 && Tail(s[0])
    case 3 => |s| == 2 && Tail(s[0]) && Tail(s[1])
    case 4 => |s| == 2 && 0xa0 <= s[0] <= 0xbf && Tail(s[1])
    case 5 => |s| == 2 && 0x80 <= s[0] <= 0x9f && Tail(s[1])
    case 6 => |s| == 3 && 0x90 <= s[0] <= 0xbf && Tail(s[1]) && Tail(s[2])
    case 7 => |s| == 3 && Tail(s[0]) && Tail(s[1]) && Tail(s[2])
    case 8 => |s| == 3 && 0x80 <= s[0] <= 0x8f && Tail(s[1]) && Tail(s[2])
    case _ => false
  }

  /** Reading a non-final byte keeps what may follow. */
  lemma CompletesStep(state: nat, b: Byte, t: seq<Byte>)
    requires 2 <= state < 9
    ensures Completes(state, [b] + t) <==> Completes(Transition(state, Class(b)), t)
  {
    assert |t| >= 1 ==> ([b] + t)[1] == t[0];
    assert |t| >= 2 ==> ([b] + t)[2] == t[1];
  }

  /** From the accepting state, a byte starts a character or is one. */
  lemma CharacterStep(b: Byte, t: seq<Byte>)
    ensures Character([b] + t) <==> Completes(Transition(ACCEPT, Class(b)), t)
  {
    assert |t| >= 1 ==> ([b] + t)[1] == t[0];
    assert |t| >= 2 ==> ([b] + t)[2] == t[1];
    assert |t| >= 3 ==> ([b] + t)[3] == t[2];
  }

  /** A state accepts a string that completes its character and goes on with whole ones. */
  ghost predicate Accepts(state: nat, s: seq<Byte>) {
    exists n | 0 <= n <= |s| :: Completes(state, s[..n]) && IsUtf8(s[n..])
  }

  lemma ConsUtf8(c: seq<Byte>, s: seq<Byte>)
    requires Character(c) && IsUtf8(s)
    ensures IsUtf8(c + s)
  {
    var parts :| Characters(parts) && Concat(parts) == s;
    var all := [c] + parts;
    assert all[1..] == parts;
    assert Characters(all) && Concat(all) == c + s;
  }

  lemma SplitUtf8(s: seq<Byte>) returns (n: nat)
    requires IsUtf8(s) && s != []
    ensures 1 <= n <= |s| && Character(s[..n]) && IsUtf8(s[n..])
  {
    var parts :| Characters(parts) && Concat(parts) == s;
    n := |parts[0]|;
    assert Character(parts[0]);
    assert s[..n] == parts[0] && s[n..] == Concat(parts[1..]);
    assert Characters(parts[1..]);
  }

  lemma EmptyUtf8()
    ensures IsUtf8([])
  {
    assert Characters([]) && Concat([]) == [];
  }

  lemma ShiftedSlices(b: Byte, t: seq<Byte>, k: nat)
    requires 1 <= k <= |t| + 1
    ensures var s := [b] + t; s[..k] == [b] + t[..k - 1] && s[k..] == t[k - 1..]
  {
  }

  lemma AcceptsTailOfWhole(b: Byte, t: seq<Byte>)
    requires IsUtf8([b] + t)
    ensures Accepts(Transition(ACCEPT, Class(b)), t)
  {
    hide Completes, Transition, Class, Character, IsUtf8;
    var k := SplitUtf8([b] + t);
    ShiftedSlices(b, t, k);
    CharacterStep(b, t[..k - 1]);
  }

  lemma AcceptsTailInside(state: nat, b: Byte, t: seq<Byte>, k: nat)
    requires 2 <= state < 9 && k <= |t| + 1 && Completes(state, ([b] + t)[..k]) && IsUtf8(([b] + t)[k..])
    ensures Accepts(Transition(state, Class(b)), t)
  {
    hide Completes, Transition, Class, Character, IsUtf8;
    NotEmpty(state, ([b] + t)[..k]);
    ShiftedSlices(b, t, k);
    CompletesStep(state, b, t[..k - 1]);
  }

  lemma AcceptsTail(state: nat, b: Byte, t: seq<Byte>)
    requires state < 9 && state != REJECT && Accepts(state, [b] + t)
    ensures Accepts(Transition(state, Class(b)), t)
  {
    hide Completes, Transition, Class, Character, IsUtf8;
    if state == ACCEPT {
      AcceptsWhole([b] + t);
      AcceptsTailOfWhole(b, t);
    } else {
      var s := [b] + t;
      var k :| 0 <= k <= |s| && Completes(state, s[..k]) && IsUtf8(s[k..]);
      AcceptsTailInside(state, b, t, k);
    }
  }

  lemma AcceptsCons(state: nat, b: Byte, t: seq<Byte>)
    requires state < 9 && state != REJECT && Accepts(Transition(state, Class(b)), t)
    ensures Accepts(state, [b] + t)
  {
    hide Completes, Transition, Class, Character, IsUtf8;
    var s := [b] + t;
    var n :| 0 <= n <= |t| && Completes(Transition(state, Class(b)), t[..n]) && IsUtf8(t[n..]);
    assert s[..n + 1] == [b] + t[..n] && s[n + 1..] == t[n..];
    if state == ACCEPT {
      CharacterStep(b, t[..n]);
      ConsUtf8(s[..n + 1], t[n..]);
      assert s[..n + 1] + t[n..] == s;
      AcceptsWhole(s);
    } else {
      CompletesStep(state, b, t[..n]);
    }
  }

  /** One byte: what a state accepts is what its successor accepts of the rest. */
  lemma AcceptsStep(state: nat, b: Byte, t: seq<Byte>)
    requires state < 9 && state != REJECT
    ensures Accepts(state, [b] + t) <==> Accepts(Transition(state, Class(b)), t)
  {
    hide Accepts, Transition, Class;
    if Accepts(state, [b] + t) {
      AcceptsTail(state, b, t);
    }
    if Accepts(Transition(state, Class(b)), t) {
      AcceptsCons(state, b, t);
    }
  }

  lemma OnlyEmpty(s: seq<Byte>)
    ensures Completes(ACCEPT, s) <==> s == []
  {
  }

  lemma NotEmpty(state: nat, s: seq<Byte>)
    requires state != ACCEPT && Completes(state, s)
    ensures s != []
  {
  }

  lemma AcceptsWhole(s: seq<Byte>)
    ensures Accepts(ACCEPT, s) <==> IsUtf8(s)
  {
    hide IsUtf8;
    assert s[0..] == s;
    if Accepts(ACCEPT, s) {
      var n :| 0 <= n <= |s| && Completes(ACCEPT, s[..n]) && IsUtf8(s[n..]);
      assert n == 0;
    }
    if IsUtf8(s) {
      assert Completes(ACCEPT, s[..0]);
    }
  }

  /** From any state, the automaton ends in accept exactly on what the state accepts. */
  lemma {:induction false} AcceptsIff(d: Decoder, s: seq<Byte>)
    requires d.state < 9
    ensures Run(d, s).state == ACCEPT <==> Accepts(d.state, s)
    decreases |s|
  {
    hide DecodeByte, Completes, Transition, Class, IsUtf8;
    if d.state == REJECT {
      RejectAbsorbs(d, s);
      NothingAfterReject(s);
    } else if s == [] {
      EmptyUtf8();
      OnlyEmpty(s[..0]);
      if d.state == ACCEPT {
        assert s[0..] == [];
      } else if Accepts(d.state, s) {
        NotEmpty(d.state, s[..0]);
      }
    } else {
      assert s == [s[0]] + s[1..];
      Step(d, s[0]);
      AcceptsStep(d.state, s[0], s[1..]);
      AcceptsIff(DecodeByte(d, s[0]), s[1..]);
    }
  }

  lemma NothingAfterReject(s: seq<Byte>)
    ensures !Accepts(REJECT, s)
  {
  }

  /** The automaton started afresh accepts exactly UTF-8. */
  lemma AcceptsExactlyUtf8(s: seq<Byte>)
    ensures Run(Decoder(ACCEPT, 0), s).state == ACCEPT <==> IsUtf8(s)
  {
    hide Run, Accepts, IsUtf8;
    AcceptsIff(Decoder(ACCEPT, 0), s);
    AcceptsWhole(s);
  }

  /** No byte of UTF-8 text is 0xFF. */
  lemma {:induction false} NoFF(s: seq<Byte>)
    requires IsUtf8(s)
    ensures 0xff !in s
    decreases |s|
  {
    hide IsUtf8;
    if s != [] {
      var n := SplitUtf8(s);
      NoFF(s[n..]);
      assert s == s[..n] + s[n..];
      assert forall i | 0 <= i < n :: s[..n][i] != 0xff;
    }
  }

  lemma FollowsByte(d: Decoder, b: Byte, t: seq<Byte>)
    requires d.state < 9
    ensures Accepts(DecodeByte(d, b).state, t) <==> Accepts(d.state, [b] + t)
  {
    hide Accepts, DecodeByte, Transition, Class;
    Step(d, b);
    if d.state == REJECT {
      NothingAfterReject(t);
      NothingAfterReject([b] + t);
      RejectAbsorbs(d, [b]);
      Run1(d, b);
    } else {
      AcceptsStep(d.state, b, t);
    }
  }

  /** Every state but reject has a continuation that it accepts. */
  lemma SomethingFollows(state: nat)
    requires state < 9
    ensures state != REJECT <==> exists t :: Accepts(state, t)
  {
    hide IsUtf8;
    if state == REJECT {
      forall t ensures !Accepts(state, t) { NothingAfterReject(t); }
    } else {
      var t: seq<Byte> := [[], [], [0x80], [0x80, 0x80], [0xa0, 0x80], [0x80, 0x80], [0x90, 0x80, 0x80],
                           [0x80, 0x80, 0x80], [0x80, 0x80, 0x80]][state];
      assert Completes(state, t);
      EmptyUtf8();
      assert t[..|t|] == t && t[|t|..] == [];
      assert Accepts(state, t);
    }
  }

  // ----- The validator object -----

  class Validator {
    var state: nat
    var codepoint: nat

    ghost function View(): Decoder
      reads this
    {
      Decoder(state, codepoint)
    }

    ghost predicate Valid()
      reads this
    {
      state < 9
    }

    constructor ()
      ensures Valid() && View() == Decoder(ACCEPT, 0)
    {
      state, codepoint := ACCEPT, 0;
    }

    /**
     * What may follow the byte is exactly what could follow it before, and the
     * answer is whether anything may: an error is reported at the first byte
     * that no continuation can mend.
     */
    method Consume(byte: Byte) returns (ok: bool)
      requires Valid()
      modifies this
      ensures Valid() && View() == DecodeByte(old(View()), byte)
      ensures forall t :: Accepts(state, t) <==> Accepts(old(state), [byte] + t)
      ensures ok <==> exists t :: Accepts(old(state), [byte] + t)
      ensures ok <==> state != REJECT
    {
      hide Accepts, DecodeByte, Transition, Class;
      ghost var before := View();
      var d := DecodeByte(Decoder(state, codepoint), byte);
      state, codepoint := d.state, d.codep;
      ok := state != REJECT;
      forall t
        ensures Accepts(state, t) <==> Accepts(before.state, [byte] + t)
      {
        FollowsByte(before, byte, t);
      }
      SomethingFollows(state);
    }

    /** Stops at the first byte that rejects; the state is that of the whole chunk all the same. */
    method Decode(s: seq<Byte>) returns (ok: bool)
      requires Valid()
      modifies this
      ensures Valid() && state == Run(old(View()), s).state
      ensures ok ==> View() == Run(old(View()), s)
      ensures ok <==> state != REJECT || s == []
    {
      hide DecodeByte;
      for i := 0 to |s|
        invariant Valid() && View() == Run(old(View()), s[..i])
        invariant i > 0 ==> state != REJECT
      {
        assert s[..i + 1] == s[..i] + [s[i]] && s == s[..i + 1] + s[i + 1..];
        RunAppend(old(View()), s[..i], [s[i]]);
        RunAppend(old(View()), s[..i + 1], s[i + 1..]);
        Run1(View(), s[i]);
        var consumed := Consume(s[i]);
        if !consumed {
          RejectAbsorbs(View(), s[i + 1..]);
          return false;
        }
      }
      assert s[..|s|] == s;
      ok := true;
    }

    method Complete() returns (ok: bool)
      ensures ok <==> state == ACCEPT
    {
      ok := state == ACCEPT;
    }

    method Reset()
      modifies this
      ensures Valid() && View() == Decoder(ACCEPT, 0)
    {
      state, codepoint := ACCEPT, 0;
    }
  }

  method Validate(s: seq<Byte>) returns (ok: bool)
    ensures ok <==> IsUtf8(s)
  {
    hide IsUtf8, Run;
    var v := new Validator();
    AcceptsExactlyUtf8(s);
    EmptyUtf8();
    ok := v.Decode(s);
    if ok {
      ok := v.Complete();
    }
  }

  /** Feeding the text chunk by chunk gives the verdict on the whole. */
  method ValidateChunks(chunks: seq<seq<Byte>>) returns (ok: bool)
    ensures ok <==> IsUtf8(Concat(chunks))
  {
    hide IsUtf8, Run;
    var v := new Validator();
    AcceptsExactlyUtf8(Concat(chunks));
    assert Concat([]) == [];
    assert Run(Decoder(ACCEPT, 0), []) == Decoder(ACCEPT, 0) by { RunEmpty(Decoder(ACCEPT, 0)); }
    for i := 0 to |chunks|
      invariant fresh(v) && v.Valid()
      invariant v.View() == Run(Decoder(ACCEPT, 0), Concat(chunks[..i]))
    {
      ConcatOneMore(chunks, i);
      ConcatSplits(chunks, i + 1);
      RunAppend(Decoder(ACCEPT, 0), Concat(chunks[..i]), chunks[i]);
      RunAppend(Decoder(ACCEPT, 0), Concat(chunks[..i + 1]), Concat(chunks[i + 1..]));
      var good := v.Decode(chunks[i]);
      if !good {
        RejectAbsorbs(v.View(), Concat(chunks[i + 1..]));
        RejectAbsorbs(Run(Decoder(ACCEPT, 0), Concat(chunks[..i + 1])), Concat(chunks[i + 1..]));
        return false;
      }
    }
    assert chunks[..|chunks|] == chunks;
    ok := v.Complete();
  }

  lemma RunEmpty(d: Decoder)
    requires d.state < 9
    ensures Run(d, []) == d
  {
  }

  /** One validator, reset between messages, judges each of them on its own. */
  method ValidateEach(messages: seq<seq<Byte>>) returns (verdicts: seq<bool>)
    ensures |verdicts| == |messages|
    ensures forall i | 0 <= i < |messages| :: verdicts[i] <==> IsUtf8(messages[i])
  {
    hide IsUtf8, Run;
    var v := new Validator();
    verdicts := [];
    EmptyUtf8();
    for i := 0 to |messages|
      invariant fresh(v) && |verdicts| == i
      invariant forall k | 0 <= k < i :: verdicts[k] <==> IsUtf8(messages[k])
    {
      v.Reset();
      AcceptsExactlyUtf8(messages[i]);
      var ok := v.Decode(messages[i]);
      if ok {
        ok := v.Complete();
      }
      verdicts := verdicts + [ok];
    }
  }
}
