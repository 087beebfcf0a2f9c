/**
 * The UTF-8 validator: a table-driven automaton over bytes, and what it accepts.
 *
 * The reference is RFC 3629: the byte sequences its section 4 allows, and the
 * encoding of its section 3.
 */
module Utf8 {
  import opened Arithmetic
  import opened Bytes

  const ACCEPT := 0
  const REJECT := 1

  // ----- The table, row by row: 256 byte classes, then 16 transitions for each of 9 states -----

  const ROW_00_1F: seq<nat> := [
    0, 0, 0, 0, 0, 0, 0, 0, 0, 0, 0, 0, 0, 0, 0, 0,
    0, 0, 0, 0, 0, 0, 0, 0, 0, 0, 0, 0, 0, 0, 0, 0]
  const ROW_20_3F: seq<nat> := [
    0, 0, 0, 0, 0, 0, 0, 0, 0, 0, 0, 0, 0, 0, 0, 0,
    0, 0, 0, 0, 0, 0, 0, 0, 0, 0, 0, 0, 0, 0, 0, 0]
  const ROW_40_5F: seq<nat> := [
    0, 0, 0, 0, 0, 0, 0, 0, 0, 0, 0, 0, 0, 0, 0, 0,
    0, 0, 0, 0, 0, 0, 0, 0, 0, 0, 0, 0, 0, 0, 0, 0]
  const ROW_60_7F: seq<nat> := [
    0, 0, 0, 0, 0, 0, 0, 0, 0, 0, 0, 0, 0, 0, 0, 0,
    0, 0, 0, 0, 0, 0, 0, 0, 0, 0, 0, 0, 0, 0, 0, 0]
  const ROW_80_9F: seq<nat> := [
    1, 1, 1, 1, 1, 1, 1, 1, 1, 1, 1, 1, 1, 1, 1, 1,
    9, 9, 9, 9, 9, 9, 9, 9, 9, 9, 9, 9, 9, 9, 9, 9]
  const ROW_A0_BF: seq<nat> := [
    7, 7, 7, 7, 7, 7, 7, 7, 7, 7, 7, 7, 7, 7, 7, 7,
    7, 7, 7, 7, 7, 7, 7, 7, 7, 7, 7, 7, 7, 7, 7, 7]
  const ROW_C0_DF: seq<nat> := [
    8, 8, 2, 2, 2, 2, 2, 2, 2, 2, 2, 2, 2, 2, 2, 2,
    2, 2, 2, 2, 2, 2, 2, 2, 2, 2, 2, 2, 2, 2, 2, 2]
  const ROW_E0_EF: seq<nat> := [10, 3, 3, 3, 3, 3, 3, 3, 3, 3, 3, 3, 3, 4, 3, 3]
  const ROW_F0_FF: seq<nat> := [11, 6, 6, 6, 5, 8, 8, 8, 8, 8, 8, 8, 8, 8, 8, 8]
  const ROW_S0_S0: seq<nat> := [0, 1, 2, 3, 5, 8, 7, 1, 1, 1, 4, 6, 1, 1, 1, 1]
  const ROW_S1_S2: seq<nat> := [
    1, 1, 1, 1, 1, 1, 1, 1, 1, 1, 1, 1, 1, 1, 1, 1,
    1, 0, 1, 1, 1, 1, 1, 0, 1, 0, 1, 1, 1, 1, 1, 1]
  const ROW_S3_S4: seq<nat> := [
    1, 2, 1, 1, 1, 1, 1, 2, 1, 2, 1, 1, 1, 1, 1, 1,
    1, 1, 1, 1, 1, 1, 1, 2, 1, 1, 1, 1, 1, 1, 1, 1]
  const ROW_S5_S6: seq<nat> := [
    1, 2, 1, 1, 1, 1, 1, 1, 1, 2, 1, 1, 1, 1, 1, 1,
    1, 1, 1, 1, 1, 1, 1, 3, 1, 3, 1, 1, 1, 1, 1, 1]
  const ROW_S7_S8: seq<nat> := [
    1, 3, 1, 1, 1, 1, 1, 3, 1, 3, 1, 1, 1, 1, 1, 1,
    1, 3, 1, 1, 1, 1, 1, 1, 1, 1, 1, 1, 1, 1, 1, 1]

  /** utf8d[i]. */
  function Utf8d(i: nat): nat
    requires i < 400
  {
    if i < 32 then ROW_00_1F[i]
    else if i < 64 then ROW_20_3F[i - 32]
    else if i < 96 then ROW_40_5F[i - 64]
    else if i < 128 then ROW_60_7F[i - 96]
    else if i < 160 then ROW_80_9F[i - 128]
    else if i < 192 then ROW_A0_BF[i - 160]
    else if i < 224 then ROW_C0_DF[i - 192]
    else if i < 240 then ROW_E0_EF[i - 224]
    else if i < 256 then ROW_F0_FF[i - 240]
    else if i < 272 then ROW_S0_S0[i - 256]
    else if i < 304 then ROW_S1_S2[i - 272]
    else if i < 336 then ROW_S3_S4[i - 304]
    else if i < 368 then ROW_S5_S6[i - 336]
    else ROW_S7_S8[i - 368]
  }

  // ----- The automaton -----

  datatype Decoder = Decoder(state: nat, codep: nat)

  /** (0xff >> kind) & byte: the payload bits of a lead byte. */
  function LeadBits(kind: nat, byte: Byte): nat {
    match kind
    case 0 => byte
    case 1 => byte % 128
    case 2 => byte % 64
    case 3 => byte % 32
    case 4 => byte % 16
    case 5 => byte % 8
    case 6 => byte % 4
    case 7 => byte % 2
    case _ => 0
  }

  /** One table step.  A state below 9 and a class below 12 keep the index below 400. */
  function DecodeByte(d: Decoder, byte: Byte): (r: Decoder)
    requires d.state < 9
    ensures r.state < 9
  {
    var kind := Utf8d(byte);
    ClassBound(byte);
    TransitionBound(d.state, kind);
    Decoder(Utf8d(256 + d.state * 16 + kind),
            if d.state != ACCEPT then byte % 64 + d.codep * 64 % TWO_32 else LeadBits(kind, byte))
  }

  function Run(d: Decoder, s: seq<Byte>): (r: Decoder)
    requires d.state < 9
    ensures r.state < 9
    decreases |s|
  {
    if s == [] then d else Run(DecodeByte(d, s[0]), s[1..])
  }

  // ----- Reading the table -----

  /** The class of a byte, by range. */
  function Class(b: nat): nat {
    if b < 0x80 then 0 else if b < 0x90 then 1 else if b < 0xa0 then 9 else if b < 0xc0 then 7
    else if b < 0xc2 then 8 else if b < 0xe0 then 2 else if b == 0xe0 then 10 else if b == 0xed then 4
    else if b < 0xf0 then 3 else if b == 0xf0 then 11 else if b < 0xf4 then 6 else if b == 0xf4 then 5 else 8
  }

  lemma ClassIs(b: Byte)
    ensures Utf8d(b) == Class(b)
  {
    hide Utf8d;
    if b < 0x80 { AsciiClass(b); }
    else if b < 0xc0 { ContinuationClass(b); }
    else { LeadClass(b); }
  }

  lemma AsciiClass(b: Byte)
    requires b < 0x80
    ensures Utf8d(b) == 0
  {
    if b < 0x40 { LowRows(if b < 0x20 then b else b - 0x20); }
    else { MidRows(if b < 0x60 then b - 0x40 else b - 0x60); }
  }

  lemma ContinuationClass(b: Byte)
    requires 0x80 <= b < 0xc0
    ensures Utf8d(b) == if b < 0x90 then 1 else if b < 0xa0 then 9 else 7
  {
    ContinuationRows(if b < 0xa0 then b - 0x80 else b - 0xa0);
  }

  lemma LeadClass(b: Byte)
    requires 0xc0 <= b
    ensures Utf8d(b) == Class(b)
  {
    if b < 0xe0 { TwoByteLeads(b - 0xc0); }
    else { LongLeads(if b < 0xf0 then b - 0xe0 else b - 0xf0); }
  }

  lemma LowRows(i: nat)
    requires i < 32
    ensures ROW_00_1F[i] == 0 && ROW_20_3F[i] == 0
  {
  }

  lemma MidRows(i: nat)
    requires i < 32
    ensures ROW_40_5F[i] == 0 && ROW_60_7F[i] == 0
  {
  }

  lemma ContinuationRows(i: nat)
    requires i < 32
    ensures ROW_80_9F[i] == (if i < 16 then 1 else 9) && ROW_A0_BF[i] == 7
  {
  }

  lemma TwoByteLeads(i: nat)
    requires i < 32
    ensures ROW_C0_DF[i] == if i < 2 then 8 else 2
  {
  }

  lemma LongLeads(i: nat)
    requires i < 16
    ensures ROW_E0_EF[i] == if i == 0 then 10 else if i == 13 then 4 else 3
    ensures ROW_F0_FF[i] == if i == 0 then 11 else if i < 4 then 6 else if i == 4 then 5 else 8
  {
  }

  lemma ClassBound(b: Byte)
    ensures Utf8d(b) < 12
  {
    ClassIs(b);
  }

  /** The transitions, by state: what may follow, and where it leads. */
  function Transition(state: nat, kind: nat): nat {
    match state
    case 0 =>
      (match kind
       case 0 => 0 case 2 => 2 case 3 => 3 case 4 => 5 case 5 => 8 case 6 => 7 case 10 => 4 case 11 => 6
       case _ => REJECT)
    case 2 => if kind == 1 || kind == 7 || kind == 9 then 0 else REJECT
    case 3 => if kind == 1 || kind == 7 || kind == 9 then 2 else REJECT
    case 4 => if kind == 7 then 2 else REJECT
    case 5 => if kind == 1 || kind == 9 then 2 else REJECT
    case 6 => if kind == 7 || kind == 9 then 3 else REJECT
    case 7 => if kind == 1 || kind == 7 || kind == 9 then 3 else REJECT
    case 8 => if kind == 1 then 3 else REJECT
    case _ => REJECT
  }

  lemma TransitionIs(state: nat, kind: nat)
    requires state < 9 && kind < 12
    ensures Utf8d(256 + state * 16 + kind) == Transition(state, kind)
  {
    if state == 0 { InitialRow(kind); }
    else if state < 3 { Rows12(kind); }
    else if state < 5 { Rows34(kind); }
    else if state < 7 { Rows56(kind); }
    else { Rows78(kind); }
  }

  lemma InitialRow(kind: nat)
    requires kind < 12
    ensures ROW_S0_S0[kind] == Transition(0, kind)
  {
  }

  lemma Rows12(kind: nat)
    requires kind < 12
    ensures ROW_S1_S2[kind] == Transition(1, kind) && ROW_S1_S2[16 + kind] == Transition(2, kind)
  {
  }

  lemma Rows34(kind: nat)
    requires kind < 12
    ensures ROW_S3_S4[kind] == Transition(3, kind) && ROW_S3_S4[16 + kind] == Transition(4, kind)
  {
  }

  lemma Rows56(kind: nat)
    requires kind < 12
    ensures ROW_S5_S6[kind] == Transition(5, kind) && ROW_S5_S6[16 + kind] == Transition(6, kind)
  {
  }

  lemma Rows78(kind: nat)
    requires kind < 12
    ensures ROW_S7_S8[kind] == Transition(7, kind) && ROW_S7_S8[16 + kind] == Transition(8, kind)
  {
  }

  lemma TransitionBound(state: nat, kind: nat)
    requires state < 9 && kind < 12
    ensures Utf8d(256 + state * 16 + kind) < 9
  {
    TransitionIs(state, kind);
  }
}
