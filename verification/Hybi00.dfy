/**
 * The frame reader and writer of the first framing, section 1.2 of
 * draft-ietf-hybi-thewebsocketprotocol-00: a text message travels between a
 * zero byte and 0xFF.
 */
module Hybi00 {
  import opened Bytes
  import opened Search
  import opened Utf8Validation
  import opened Wrappers

  const MSG_HDR: Byte := 0x00
  const MSG_FTR: Byte := 0xff

  datatype Phase = Header | Payload | Ready | FatalError

  datatype Error = NoError | ProtocolViolation | NoIncomingBuffers

  /** supply is the number of message buffers the manager can still hand out. */
  datatype Reader = Reader(phase: Phase, message: Option<seq<Byte>>, supply: nat)

  // ----- One call of consume, byte by byte -----

  datatype Eaten = Eaten(reader: Reader, count: nat, error: Error)

  predicate IsReader(r: Reader) {
    r.phase == Payload || r.phase == Ready ==> r.message.Some?
  }

  function Eat(r: Reader, s: seq<Byte>): (e: Eaten)
    requires IsReader(r)
    ensures IsReader(e.reader) && e.count <= |s|
    decreases |s|
  {
    if s == [] || r.phase == Ready || r.phase == FatalError then
      Eaten(r, 0, NoError)
    else if r.phase == Header then
      if s[0] != MSG_HDR then Eaten(r.(phase := FatalError), 0, ProtocolViolation)
      else if r.supply == 0 then Eaten(Reader(FatalError, None, 0), 1, NoIncomingBuffers)
      else Further(1, Eat(Reader(Payload, Some([]), r.supply - 1), s[1..]))
    else if s[0] == MSG_FTR then
      Eaten(r.(phase := Ready), 1, NoError)
    else
      Further(1, Eat(r.(message := Some(r.message.value + [s[0]])), s[1..]))
  }

  function Further(n: nat, e: Eaten): Eaten {
    e.(count := n + e.count)
  }

  /** Every call advances or reports an error, unless the reader already stopped. */
  lemma EatProgresses(r: Reader, s: seq<Byte>)
    requires IsReader(r) && s != [] && (r.phase == Header || r.phase == Payload)
    ensures Eat(r, s).count > 0 || Eat(r, s).error != NoError
    ensures Eat(r, s).error != NoError <==> Eat(r, s).reader.phase == FatalError
    ensures Eat(r, s).count == |s| || Eat(r, s).reader.phase == Ready || Eat(r, s).reader.phase == FatalError
    decreases |s|
  {
    if r.phase == Payload && s[0] != MSG_FTR && |s| > 1 {
      EatProgresses(r.(message := Some(r.message.value + [s[0]])), s[1..]);
    } else if r.phase == Header && s[0] == MSG_HDR && r.supply > 0 && |s| > 1 {
      EatProgresses(Reader(Payload, Some([]), r.supply - 1), s[1..]);
    }
  }

  /** Bytes other than the footer are copied into the message all at once. */
  lemma {:induction false} EatPayload(r: Reader, s: seq<Byte>, t: seq<Byte>)
    requires IsReader(r) && r.phase == Payload && MSG_FTR !in s
    ensures Eat(r, s + t) == Further(|s|, Eat(r.(message := Some(r.message.value + s)), t))
    decreases |s|
  {
    var m := r.message.value;
    if s == [] {
      assert s + t == t && m + s == m;
    } else {
      assert (s + t)[1..] == s[1..] + t && (s + t)[0] == s[0];
      var r1 := r.(message := Some(m + [s[0]]));
      EatPayload(r1, s[1..], t);
      assert m + [s[0]] + s[1..] == m + s;
    }
  }

  // What the specification says at a place in the buffer

  lemma EatStops(r: Reader, s: seq<Byte>)
    requires IsReader(r)
    ensures s == [] || r.phase == Ready || r.phase == FatalError ==> Eat(r, s) == Eaten(r, 0, NoError)
  {
  }

  lemma EatHeader(r: Reader, buf: seq<Byte>, p: nat)
    requires p < |buf| && r.phase == Header
    ensures Eat(r, buf[p..]) ==
      if buf[p] != MSG_HDR then Eaten(r.(phase := FatalError), 0, ProtocolViolation)
      else if r.supply == 0 then Eaten(Reader(FatalError, None, 0), 1, NoIncomingBuffers)
      else Further(1, Eat(Reader(Payload, Some([]), r.supply - 1), buf[p + 1..]))
  {
    EatOne(r, buf[p..]);
    hide Eat;
    assert buf[p..][1..] == buf[p + 1..];
  }

  lemma EatOne(r: Reader, s: seq<Byte>)
    requires s != [] && r.phase == Header
    ensures Eat(r, s) ==
      if s[0] != MSG_HDR then Eaten(r.(phase := FatalError), 0, ProtocolViolation)
      else if r.supply == 0 then Eaten(Reader(FatalError, None, 0), 1, NoIncomingBuffers)
      else Further(1, Eat(Reader(Payload, Some([]), r.supply - 1), s[1..]))
  {
  }

  lemma EatUpTo(r: Reader, buf: seq<Byte>, p: nat, it: nat)
    requires IsReader(r) && r.phase == Payload && p <= it <= |buf| && MSG_FTR !in buf[p..it]
    requires it < |buf| ==> buf[it] == MSG_FTR
    ensures Eat(r, buf[p..]) ==
      var message := Some(r.message.value + buf[p..it]);
      if it == |buf| then Eaten(r.(message := message), it - p, NoError)
      else Eaten(Reader(Ready, message, r.supply), it - p + 1, NoError)
  {
    assert buf[p..] == buf[p..it] + buf[it..];
    EatPayload(r, buf[p..it], buf[it..]);
  }

  // ----- The reader object -----

  class Processor {
    var phase: Phase
    var message: Option<seq<Byte>>
    var supply: nat

    ghost function View(): Reader
      reads this
    {
      Reader(phase, message, supply)
    }

    constructor (supply: nat)
      ensures View() == Reader(Header, None, supply)
    {
      phase, message, this.supply := Header, None, supply;
    }

    /** The message manager: no buffer once the supply is exhausted. */
    method NewMessage()
      modifies this
      ensures View() == old(if supply == 0 then Reader(phase, None, 0) else Reader(phase, Some([]), supply - 1))
    {
      if supply == 0 {
        message := None;
      } else {
        message := Some([]);
        supply := supply - 1;
      }
    }

    method Consume(buf: seq<Byte>) returns (p: nat, ec: Error)
      requires IsReader(View())
      modifies this
      ensures Eaten(View(), p, ec) == Eat(old(View()), buf)
    {
      hide Eat;
      p, ec := 0, NoError;
      assert buf[0..] == buf;
      ghost var whole := Eat(View(), buf);
      while p < |buf|
        invariant p <= |buf| && IsReader(View())
        invariant ec == NoError ==> whole == Further(p, Eat(View(), buf[p..]))
        invariant ec != NoError ==> phase == FatalError && whole == Eaten(View(), p, ec)
        decreases |buf| - p, if phase == FatalError then 0 else 1
      {
        ghost var r := View();
        if phase == Header {
          EatHeader(r, buf, p);
          if buf[p] == MSG_HDR {
            p := p + 1;
            NewMessage();
            if message == None {
              ec := NoIncomingBuffers;
              phase := FatalError;
            } else {
              phase := Payload;
            }
          } else {
            ec := ProtocolViolation;
            phase := FatalError;
          }
        } else if phase == Payload {
          var it := Find(buf, p, MSG_FTR);
          EatUpTo(r, buf, p, it);
          message := Some(message.value + buf[p..it]);
          p := it;
          if it != |buf| {
            p := p + 1;
            phase := Ready;
          }
          EatStops(View(), buf[p..]);
        } else {
          break;
        }
      }
      EatStops(View(), buf[p..]);
    }

    predicate IsReady()
      reads this
    {
      phase == Ready
    }

    method GetMessage() returns (m: Option<seq<Byte>>)
      modifies this
      ensures m == old(message) && View() == Reader(Header, None, old(supply))
    {
      m := message;
      message := None;
      phase := Header;
    }
  }

  // ----- The read loop, one byte at a time -----

  /** Where the connection stands between reads, and what it handed to the message handler. */
  datatype Session = Session(reader: Reader, delivered: seq<seq<Byte>>, error: Error)

  function Fresh(supply: nat): Session {
    Session(Reader(Header, None, supply), [], NoError)
  }

  predicate Reading(c: Session) {
    && IsReader(c.reader)
    && (c.error == NoError ==> c.reader.phase == Header || c.reader.phase == Payload)
  }

  /** After an error nothing is read any more. */
  function FeedByte(c: Session, b: Byte): (d: Session)
    requires Reading(c)
    ensures Reading(d)
  {
    var r := c.reader;
    if c.error != NoError then c
    else if r.phase == Header then
      if b != MSG_HDR then c.(reader := r.(phase := FatalError), error := ProtocolViolation)
      else if r.supply == 0 then c.(reader := Reader(FatalError, None, 0), error := NoIncomingBuffers)
      else c.(reader := Reader(Payload, Some([]), r.supply - 1))
    else if b == MSG_FTR then
      c.(reader := Reader(Header, None, r.supply), delivered := c.delivered + [r.message.value])
    else c.(reader := r.(message := Some(r.message.value + [b])))
  }

  function Feed(c: Session, s: seq<Byte>): (d: Session)
    requires Reading(c)
    ensures Reading(d)
    decreases |s|
  {
    if s == [] then c else Feed(FeedByte(c, s[0]), s[1..])
  }

  lemma {:induction false} FeedAppend(c: Session, s: seq<Byte>, t: seq<Byte>)
    requires Reading(c)
    ensures Feed(c, s + t) == Feed(Feed(c, s), t)
    decreases |s|
  {
    hide FeedByte;
    if s == [] {
      assert s + t == t;
    } else {
      assert (s + t)[1..] == s[1..] + t && (s + t)[0] == s[0];
      FeedAppend(FeedByte(c, s[0]), s[1..], t);
    }
  }

  lemma {:induction false} FeedStopped(c: Session, s: seq<Byte>)
    requires Reading(c) && c.error != NoError
    ensures Feed(c, s) == c
    decreases |s|
  {
    if s != [] {
      FeedStopped(c, s[1..]);
    }
  }

  /** The session after a call of consume, and of get_message if the reader is ready. */
  function Taken(c: Session, e: Eaten): Session
    requires IsReader(e.reader)
  {
    if e.reader.phase == Ready then
      Session(Reader(Header, None, e.reader.supply), c.delivered + [e.reader.message.value], e.error)
    else c.(reader := e.reader, error := e.error)
  }

  /** One call of consume does what its bytes do one at a time, and what it leaves is left to the next call. */
  lemma {:induction false} EatFeeds(c: Session, s: seq<Byte>)
    requires Reading(c) && c.error == NoError
    ensures Reading(Taken(c, Eat(c.reader, s)))
    ensures Feed(c, s) == Feed(Taken(c, Eat(c.reader, s)), s[Eat(c.reader, s).count..])
    decreases |s|
  {
    hide Feed;
    var e := Eat(c.reader, s);
    FeedSplit(c, s);
    if s == [] {
      assert s[e.count..] == s;
    } else {
      var c1 := FeedByte(c, s[0]);
      if c.reader.phase == Header && s[0] != MSG_HDR {
        assert s[0..] == s;
        FeedStopped(Taken(c, e), s);
        FeedStopped(c1, s[1..]);
      } else if c.reader.phase == Header && c.reader.supply == 0 {
        assert Taken(c, e) == c1;
      } else if c.reader.phase == Payload && s[0] == MSG_FTR {
        assert Taken(c, e) == c1;
      } else {
        EatFeeds(c1, s[1..]);
        var e1 := Eat(c1.reader, s[1..]);
        assert e == Further(1, e1) && c1.delivered == c.delivered;
        assert s[1..][e1.count..] == s[e.count..];
      }
    }
  }

  lemma FeedSplit(c: Session, s: seq<Byte>)
    requires Reading(c)
    ensures Feed(c, s) == if s == [] then c else Feed(FeedByte(c, s[0]), s[1..])
  {
  }

  // ----- What the bytes mean -----

  /** A message on the wire. */
  function Framed(m: seq<Byte>): seq<Byte> {
    [MSG_HDR] + m + [MSG_FTR]
  }

  function Wire(ms: seq<seq<Byte>>): seq<Byte> {
    if ms == [] then [] else Wire(ms[..|ms| - 1]) + Framed(ms[|ms| - 1])
  }

  /** The part of a message that has arrived. */
  function Partial(r: Reader): seq<Byte>
    requires IsReader(r)
  {
    if r.phase == Payload then [MSG_HDR] + r.message.value else []
  }

  predicate Unframed(ms: seq<seq<Byte>>) {
    forall i | 0 <= i < |ms| :: MSG_FTR !in ms[i]
  }

  /**
   * Nothing is lost, invented or reordered: as long as no error came up, the
   * bytes read are the delivered messages on the wire followed by the part of
   * the next one, and one message buffer was used for each.
   */
  lemma {:induction false} BytesAreAccountedFor(supply: nat, s: seq<Byte>)
    ensures var c := Feed(Fresh(supply), s);
      c.error == NoError ==>
        && s == Wire(c.delivered) + Partial(c.reader)
        && Unframed(c.delivered) && MSG_FTR !in Partial(c.reader)
        && c.reader.supply + |c.delivered| + (if c.reader.phase == Payload then 1 else 0) == supply
    decreases |s|
  {
    if s != [] {
      var t, b := s[..|s| - 1], s[|s| - 1];
      assert s == t + [b];
      BytesAreAccountedFor(supply, t);
      FeedAppend(Fresh(supply), t, [b]);
      FeedOne(Feed(Fresh(supply), t), b);
      if Feed(Fresh(supply), t).error == NoError {
        AccountByte(Feed(Fresh(supply), t), t, b);
      }
    }
  }

  lemma FeedOne(c: Session, b: Byte)
    requires Reading(c)
    ensures Feed(c, [b]) == FeedByte(c, b)
  {
    var s := [b];
    assert s[1..] == [];
  }

  lemma AccountByte(c: Session, t: seq<Byte>, b: Byte)
    requires Reading(c) && c.error == NoError && t == Wire(c.delivered) + Partial(c.reader)
    ensures var d := FeedByte(c, b);
      d.error == NoError ==> t + [b] == Wire(d.delivered) + Partial(d.reader)
  {
    hide Wire, Framed, FeedByte, Partial;
    if c.reader.phase == Header {
      AccountHeader(c, t, b);
    } else if b == MSG_FTR {
      AccountFooter(c, t);
    } else {
      AccountBody(c, t, b);
    }
  }

  lemma AccountHeader(c: Session, t: seq<Byte>, b: Byte)
    requires Reading(c) && c.error == NoError && c.reader.phase == Header && t == Wire(c.delivered) + Partial(c.reader)
    ensures var d := FeedByte(c, b);
      d.error == NoError ==> t + [b] == Wire(d.delivered) + Partial(d.reader)
  {
    hide Wire;
    assert t == Wire(c.delivered);
    assert [MSG_HDR] + [] == [MSG_HDR];
  }

  lemma AccountBody(c: Session, t: seq<Byte>, b: Byte)
    requires Reading(c) && c.error == NoError && c.reader.phase == Payload && b != MSG_FTR
    requires t == Wire(c.delivered) + Partial(c.reader)
    ensures var d := FeedByte(c, b); t + [b] == Wire(d.delivered) + Partial(d.reader)
  {
    hide Wire;
    var m := c.reader.message.value;
    assert [MSG_HDR] + (m + [b]) == ([MSG_HDR] + m) + [b];
  }

  lemma AccountFooter(c: Session, t: seq<Byte>)
    requires Reading(c) && c.error == NoError && c.reader.phase == Payload
    requires t == Wire(c.delivered) + Partial(c.reader)
    ensures var d := FeedByte(c, MSG_FTR); t + [MSG_FTR] == Wire(d.delivered) + Partial(d.reader)
  {
    hide Wire;
    WireOneMore(c.delivered, c.reader.message.value);
  }

  lemma WireOneMore(ms: seq<seq<Byte>>, m: seq<Byte>)
    ensures Wire(ms + [m]) == Wire(ms) + Framed(m)
  {
    assert (ms + [m])[..|ms|] == ms;
  }

  lemma {:induction false} FeedBody(c: Session, s: seq<Byte>)
    requires Reading(c) && c.error == NoError && c.reader.phase == Payload && MSG_FTR !in s
    ensures Feed(c, s) == c.(reader := c.reader.(message := Some(c.reader.message.value + s)))
    decreases |s|
  {
    var m := c.reader.message.value;
    if s == [] {
      assert m + s == m;
    } else {
      FeedBody(FeedByte(c, s[0]), s[1..]);
      assert m + [s[0]] + s[1..] == m + s;
    }
  }

  lemma FeedFramed(c: Session, m: seq<Byte>)
    requires Reading(c) && c.error == NoError && c.reader.phase == Header && c.reader.supply > 0 && MSG_FTR !in m
    ensures Feed(c, Framed(m)) == Session(Reader(Header, None, c.reader.supply - 1), c.delivered + [m], NoError)
  {
    var c1 := FeedByte(c, MSG_HDR);
    FeedOne(c, MSG_HDR);
    FeedAppend(c, [MSG_HDR], m);
    FeedBody(c1, m);
    assert [] + m == m;
    var c2 := c1.(reader := c1.reader.(message := Some(m)));
    FeedOne(c2, MSG_FTR);
    FeedAppend(c, [MSG_HDR] + m, [MSG_FTR]);
  }

  lemma {:induction false} WireDelivers(supply: nat, ms: seq<seq<Byte>>)
    requires Unframed(ms) && |ms| <= supply
    ensures Feed(Fresh(supply), Wire(ms)) == Session(Reader(Header, None, supply - |ms|), ms, NoError)
  {
    hide Feed, Framed;
    if ms == [] {
      FeedSplit(Fresh(supply), []);
    } else {
      var front, last := ms[..|ms| - 1], ms[|ms| - 1];
      assert ms == front + [last];
      WireDelivers(supply, front);
      FeedAppend(Fresh(supply), Wire(front), Framed(last));
      FeedFramed(Feed(Fresh(supply), Wire(front)), last);
    }
  }

  /**
   * Messages put on the wire one after the other come out the same, in order,
   * exactly when none contains the footer byte and the message manager does
   * not run out.
   */
  lemma DeliversExactly(supply: nat, ms: seq<seq<Byte>>)
    ensures
      var c := Feed(Fresh(supply), Wire(ms));
      c.error == NoError && c.delivered == ms <==> Unframed(ms) && |ms| <= supply
  {
    hide Feed, Wire;
    BytesAreAccountedFor(supply, Wire(ms));
    if Unframed(ms) && |ms| <= supply {
      WireDelivers(supply, ms);
    }
  }

  lemma {:induction false} FeedOnlyAdds(c: Session, s: seq<Byte>)
    requires Reading(c)
    ensures c.delivered <= Feed(c, s).delivered
    ensures c.error != NoError ==> Feed(c, s).error != NoError
    decreases |s|
  {
    if s != [] {
      FeedOnlyAdds(FeedByte(c, s[0]), s[1..]);
    }
  }

  /** At any point of the transfer, what has been delivered is a prefix of what was sent, and nothing failed. */
  lemma PrefixDelivers(supply: nat, ms: seq<seq<Byte>>, s: seq<Byte>)
    requires Unframed(ms) && |ms| <= supply && s <= Wire(ms)
    ensures Feed(Fresh(supply), s).error == NoError && Feed(Fresh(supply), s).delivered <= ms
  {
    hide Feed, Wire;
    var t := Wire(ms)[|s|..];
    assert Wire(ms) == s + t;
    FeedAppend(Fresh(supply), s, t);
    FeedOnlyAdds(Feed(Fresh(supply), s), t);
    WireDelivers(supply, ms);
  }

  /** handle_read_frame's loop over one read: consume, and hand over each message that is ready. */
  method HandleRead(processor: Processor, buf: seq<Byte>, ghost c: Session)
    returns (messages: seq<seq<Byte>>, ec: Error)
    requires Reading(c) && c.error == NoError && c.reader == processor.View()
    modifies processor
    ensures Session(processor.View(), c.delivered + messages, ec) == Feed(c, buf)
  {
    hide Feed, FeedByte, Eat;
    messages, ec := [], NoError;
    ghost var now := c;
    var p := 0;
    assert buf[0..] == buf;
    while p < |buf|
      invariant p <= |buf| && Reading(now) && ec == NoError
      invariant now == Session(processor.View(), c.delivered + messages, NoError)
      invariant Feed(c, buf) == Feed(now, buf[p..])
    {
      ghost var rest := buf[p..];
      EatProgresses(now.reader, rest);
      EatFeeds(now, rest);
      ghost var next := Taken(now, Eat(now.reader, rest));
      var n;
      n, ec := processor.Consume(buf[p..]);
      p := p + n;
      assert rest[n..] == buf[p..];
      if ec != NoError {
        FeedStopped(next, buf[p..]);
        return;
      }
      if processor.IsReady() {
        var message := processor.GetMessage();
        messages := messages + [message.value];
      }
      now := next;
    }
    FeedSplit(now, buf[p..]);
  }

  /** All reads of a connection: an error ends the reading. */
  method ReadAll(segments: seq<seq<Byte>>, supply: nat) returns (messages: seq<seq<Byte>>, ec: Error)
    ensures messages == Feed(Fresh(supply), Concat(segments)).delivered
    ensures ec == Feed(Fresh(supply), Concat(segments)).error
  {
    hide Feed, FeedByte, Concat;
    var processor := new Processor(supply);
    messages, ec := [], NoError;
    ghost var now := Fresh(supply);
    assert segments[0..] == segments;
    for i := 0 to |segments|
      invariant fresh(processor) && Reading(now) && ec == NoError && now == Session(processor.View(), messages, NoError)
      invariant Feed(Fresh(supply), Concat(segments)) == Feed(now, Concat(segments[i..]))
    {
      ConcatHead(segments[i..]);
      assert segments[i..][1..] == segments[i + 1..];
      FeedAppend(now, segments[i], Concat(segments[i + 1..]));
      ghost var next := Feed(now, segments[i]);
      var more;
      more, ec := HandleRead(processor, segments[i], now);
      messages := messages + more;
      now := next;
      if ec != NoError {
        FeedStopped(now, Concat(segments[i + 1..]));
        return;
      }
    }
    ConcatNone(segments[|segments|..]);
    FeedSplit(now, []);
  }

  lemma ConcatHead(parts: seq<seq<Byte>>)
    requires parts != []
    ensures Concat(parts) == parts[0] + Concat(parts[1..])
  {
  }

  lemma ConcatNone(parts: seq<seq<Byte>>)
    requires parts == []
    ensures Concat(parts) == []
  {
  }

  // ----- The writer -----

  datatype WriteError = Prepared | InvalidArguments | InvalidOpcode | InvalidPayload

  const TEXT := 1

  class Message {
    var opcode: nat
    var header: seq<Byte>
    var payload: seq<Byte>
    var prepared: bool

    constructor (opcode: nat, payload: seq<Byte>)
      ensures this.opcode == opcode && header == [] && this.payload == payload && !prepared
    {
      this.opcode, header, this.payload, prepared := opcode, [], payload, false;
    }

    /** The bytes the transport is given. */
    function Bytes(): seq<Byte>
      reads this
    {
      header + payload
    }
  }

  /** prepare_data_frame: only text that is valid UTF-8 is framed; `in` and `out` may be one message. */
  method PrepareDataFrame(source: Message?, out: Message?) returns (ec: WriteError)
    modifies out
    ensures ec ==
      if source == null || out == null then InvalidArguments
      else if old(source.opcode) != 1 then InvalidOpcode
      else if !IsUtf8(old(source.payload)) then InvalidPayload
      else Prepared
    ensures ec == Prepared ==> out.prepared && out.Bytes() == [0x00] + old(source.payload) + [0xff]
    ensures ec != Prepared && out != null ==> unchanged(out)
  {
    hide IsUtf8;
    if source == null || out == null {
      return InvalidArguments;
    }
    if source.opcode != TEXT {
      return InvalidOpcode;
    }
    var i := source.payload;
    var valid := Validate(i);
    if !valid {
      return InvalidPayload;
    }
    out.header := [MSG_HDR];
    out.payload := i;
    out.payload := out.payload + [MSG_FTR];
    out.prepared := true;
    ec := Prepared;
  }

  /**
   * Messages that prepare_data_frame accepts, put on the wire and cut into
   * reads anywhere, are delivered as they were sent.
   */
  lemma AcceptedMessagesArrive(supply: nat, ms: seq<seq<Byte>>, segments: seq<seq<Byte>>)
    requires forall i | 0 <= i < |ms| :: IsUtf8(ms[i])
    requires |ms| <= supply && Concat(segments) == Wire(ms)
    ensures Feed(Fresh(supply), Concat(segments)).delivered == ms
    ensures Feed(Fresh(supply), Concat(segments)).error == NoError
  {
    hide Feed, Wire, Concat, IsUtf8;
    forall i | 0 <= i < |ms|
      ensures MSG_FTR !in ms[i]
    {
      NoFF(ms[i]);
    }
    DeliversExactly(supply, ms);
  }

  // ----- Errors -----

  /** Messages on the wire one after the other, each between 0x00 and 0xFF. */
  lemma {:induction false} WireIs(ms: seq<seq<Byte>>)
    ensures Wire(ms) == Concat(seq(|ms|, i requires 0 <= i < |ms| => [0x00] + ms[i] + [0xff]))
  {
    var parts := seq(|ms|, i requires 0 <= i < |ms| => [0x00] + ms[i] + [0xff]);
    if ms != [] {
      var front, last := ms[..|ms| - 1], ms[|ms| - 1];
      WireIs(front);
      assert parts == parts[..|ms| - 1] + [[0x00] + last + [0xff]];
      assert parts[..|ms| - 1] == seq(|front|, i requires 0 <= i < |front| => [0x00] + front[i] + [0xff]);
      ConcatAppend(parts[..|ms| - 1], [[0x00] + last + [0xff]]);
      ConcatOne([0x00] + last + [0xff]);
    }
  }

  /** The byte at which reading stopped, and why: the delivered messages come right before it. */
  predicate Blames(c: Session, supply: nat, s: seq<Byte>) {
    var done := |Wire(c.delivered)|;
    && done < |s| && s[..done] == Wire(c.delivered)
    && (c.error == ProtocolViolation <==> s[done] != 0x00)
    && (c.error == NoIncomingBuffers <==> s[done] == 0x00)
    && (c.error == NoIncomingBuffers ==> |c.delivered| == supply)
  }

  /**
   * Reading fails at a byte that should begin a message: because it is not
   * 0x00, or because there is no buffer left for the message.
   */
  lemma {:induction false} ErrorsMean(supply: nat, s: seq<Byte>)
    ensures var c := Feed(Fresh(supply), s); c.error != NoError ==> Blames(c, supply, s)
    decreases |s|
  {
    hide Feed, Wire;
    if s == [] {
      FeedSplit(Fresh(supply), []);
    } else {
      var t, b := s[..|s| - 1], s[|s| - 1];
      assert s == t + [b];
      ErrorsMean(supply, t);
      FeedAppend(Fresh(supply), t, [b]);
      FeedOne(Feed(Fresh(supply), t), b);
      BytesAreAccountedFor(supply, t);
      assert t + [] == t;
    }
  }

  // ----- From the sender to the message handler -----

  /** The messages that prepare_data_frame accepts. */
  ghost function Accepted(ms: seq<seq<Byte>>): (r: seq<seq<Byte>>)
    ensures forall i | 0 <= i < |r| :: IsUtf8(r[i])
  {
    if ms == [] then []
    else Accepted(ms[..|ms| - 1]) + if IsUtf8(ms[|ms| - 1]) then [ms[|ms| - 1]] else []
  }

  /** The bytes that the transport is given for some text messages, refused ones left out. */
  method Send(ms: seq<seq<Byte>>) returns (bytes: seq<Byte>)
    ensures bytes == Wire(Accepted(ms))
  {
    hide IsUtf8, Accepted;
    bytes := [];
    assert Accepted(ms[..0]) == [] by { AcceptedNone(ms[..0]); }
    for i := 0 to |ms|
      invariant bytes == Wire(Accepted(ms[..i]))
    {
      AcceptedOneMore(ms, i);
      var source := new Message(TEXT, ms[i]);
      var out := new Message(TEXT, []);
      var ec := PrepareDataFrame(source, out);
      if ec == Prepared {
        WireOneMore(Accepted(ms[..i]), ms[i]);
        bytes := bytes + out.Bytes();
      }
    }
    assert ms[..|ms|] == ms;
  }

  lemma AcceptedNone(ms: seq<seq<Byte>>)
    requires ms == []
    ensures Accepted(ms) == []
  {
  }

  lemma AcceptedOneMore(ms: seq<seq<Byte>>, i: nat)
    requires i < |ms|
    ensures Accepted(ms[..i + 1]) == if IsUtf8(ms[i]) then Accepted(ms[..i]) + [ms[i]] else Accepted(ms[..i])
  {
    hide IsUtf8;
    assert ms[..i + 1][..i] == ms[..i];
    assert Accepted(ms[..i]) + [] == Accepted(ms[..i]);
  }

  /** Reads of the given sizes, and one of what is left. */
  method Cut(bytes: seq<Byte>, sizes: seq<nat>) returns (segments: seq<seq<Byte>>)
    ensures Concat(segments) == bytes
  {
    hide Concat;
    segments := [];
    ConcatNone(segments);
    var p := 0;
    for i := 0 to |sizes|
      invariant p <= |bytes| && Concat(segments) == bytes[..p]
    {
      var next := if sizes[i] <= |bytes| - p then p + sizes[i] else |bytes|;
      ConcatAppend(segments, [bytes[p..next]]);
      ConcatOne(bytes[p..next]);
      assert bytes[..p] + bytes[p..next] == bytes[..next];
      segments := segments + [bytes[p..next]];
      p := next;
    }
    ConcatAppend(segments, [bytes[p..]]);
    ConcatOne(bytes[p..]);
    segments := segments + [bytes[p..]];
  }

  /**
   * Text messages prepared, put on the wire, cut into reads of any sizes and
   * read: the message handler is given exactly the valid ones, in order.
   */
  method Transfer(ms: seq<seq<Byte>>, sizes: seq<nat>, supply: nat) returns (messages: seq<seq<Byte>>, ec: Error)
    requires |Accepted(ms)| <= supply
    ensures messages == Accepted(ms) && ec == NoError
    ensures (forall i | 0 <= i < |ms| :: IsUtf8(ms[i])) ==> messages == ms
  {
    hide IsUtf8, Wire, Feed, Concat, Accepted;
    var bytes := Send(ms);
    var segments := Cut(bytes, sizes);
    AcceptedMessagesArrive(supply, Accepted(ms), segments);
    if forall i | 0 <= i < |ms| :: IsUtf8(ms[i]) {
      AllAccepted(ms);
    }
    messages, ec := ReadAll(segments, supply);
  }

  lemma {:induction false} AllAccepted(ms: seq<seq<Byte>>)
    requires forall i | 0 <= i < |ms| :: IsUtf8(ms[i])
    ensures Accepted(ms) == ms
  {
    if ms != [] {
      AllAccepted(ms[..|ms| - 1]);
    }
  }
}
