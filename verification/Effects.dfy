/**
 * What the handlers do, told from outside: which messages an open connection
 * pushes for the calls and frames it gets, what becomes of a handshake, and
 * which user handler each event calls.
 */
module Effects {
  import opened SessionModel

  // ----- What user calls say -----

  /** Close codes after which a connection is not kept waiting for an answer. */
  predicate Unrecoverable(code: nat) {
    code in {1002, 1007, 1008, 1009, 1011}
  }

  /** The message that a call on an open connection pushes. */
  function Said(call: UserCall): seq<Msg> {
    match call
    case SendPrepared(payload, terminal) => [Msg(Data, payload, terminal)]
    case Send(payload, granted) => if granted then [Msg(Data, payload, false)] else []
    case SendPing(payload, granted) => if granted then [Msg(Ping, payload, false)] else []
    case SendPong(payload, granted) => if granted then [Msg(Pong, payload, false)] else []
    case CloseCall(code, payload, granted) => if granted then [Msg(Close, payload, Unrecoverable(code))] else []
  }

  predicate Closes(call: UserCall) {
    call.CloseCall? && call.granted
  }

  predicate StaysOpen(calls: seq<UserCall>) {
    forall i | 0 <= i < |calls| :: !Closes(calls[i])
  }

  /** What a handler's calls push: everything up to and including the first close. */
  function Spoken(calls: seq<UserCall>): seq<Msg> {
    if calls == [] then []
    else Said(calls[0]) + if Closes(calls[0]) then [] else Spoken(calls[1..])
  }

  /** What calls and frames do not decide. */
  predicate SameCourse(c: Conn, d: Conn) {
    && d.isServer == c.isServer && d.dropOnProtocolError == c.dropOnProtocolError
    && d.istate == c.istate && d.isHttp == c.isHttp && d.switching == c.switching
    && d.tally.opens == c.tally.opens && d.tally.fails == c.tally.fails && d.tally.closes == c.tally.closes
    && d.tally.terminations == c.tally.terminations
  }

  lemma SameOn(c: Conn, d: Conn, e: Conn)
    requires SameCourse(c, d) && SameCourse(d, e)
    ensures SameCourse(c, e)
  {
  }

  /** A message and nothing else; only the write pump and a close timer may be owed more. */
  lemma PushSays(c: Conn, m: Msg)
    ensures var d := PushAndWake(c, m);
      && SameCourse(c, d) && d.state == c.state && d.ec == c.ec && d.wasClean == c.wasClean
      && d.pump.pushed == c.pump.pushed + [m]
      && d.pending[HandleReadFrame] == c.pending[HandleReadFrame] && c.pending <= d.pending
  {
  }

  /** All of a close, or nothing. */
  lemma CloseFrameSays(c: Conn, payload: string, ack: bool, terminal: bool, granted: bool)
    ensures var d := SendCloseFrame(c, payload, ack, terminal, granted);
      && SameCourse(c, d) && d.ec == c.ec
      && d.pump.pushed == c.pump.pushed + (if granted then [Msg(Close, payload, terminal)] else [])
      && d.state == (if granted then Closing else c.state)
      && d.wasClean == (c.wasClean || (granted && ack))
      && (granted ==> CloseTimer in d.pending)
  {
    hide PushAndWake;
    if granted {
      PushSays(BeginClosing(c, ack), Msg(Close, payload, terminal));
    } else {
      assert c.pump.pushed + [] == c.pump.pushed;
    }
  }

  lemma TerminalCodes(code: nat)
    ensures TerminalCode(code) <==> Unrecoverable(code)
  {
  }

  /** A call on an open connection pushes its message; only a granted close ends the open state. */
  lemma CallSays(c: Conn, call: UserCall)
    requires c.state == Open
    ensures var d := Call(c, call);
      && SameCourse(c, d) && d.ec == c.ec && d.wasClean == c.wasClean
      && d.pump.pushed == c.pump.pushed + Said(call)
      && d.state == (if Closes(call) then Closing else Open)
  {
    hide PushAndWake, SendCloseFrame, TerminalCode, Unrecoverable;
    assert c.pump.pushed + [] == c.pump.pushed;
    match call
    case SendPrepared(payload, terminal) => PushSays(c, Msg(Data, payload, terminal));
    case Send(payload, _) => PushSays(c, Msg(Data, payload, false));
    case SendPing(payload, _) => PushSays(c, Msg(Ping, payload, false));
    case SendPong(payload, _) => PushSays(c, Msg(Pong, payload, false));
    case CloseCall(code, payload, granted) =>
      TerminalCodes(code);
      CloseFrameSays(c, payload, false, TerminalCode(code), granted);
  }

  lemma {:induction false} NotOpenIgnores(c: Conn, calls: seq<UserCall>)
    requires c.state != Open
    ensures RunCalls(c, calls) == c
    decreases |calls|
  {
    if calls != [] {
      NotOpenIgnores(c, calls[1..]);
    }
  }

  /** The calls of a handler are made in order, and those after a close have no effect. */
  lemma {:induction false} CallsSay(c: Conn, calls: seq<UserCall>)
    requires c.state == Open
    ensures var d := RunCalls(c, calls);
      && SameCourse(c, d) && d.ec == c.ec && d.wasClean == c.wasClean
      && d.pump.pushed == c.pump.pushed + Spoken(calls)
      && d.state == (if StaysOpen(calls) then Open else Closing)
    decreases |calls|
  {
    hide Call, Said, Closes;
    if calls == [] {
      assert c.pump.pushed + [] == c.pump.pushed;
    } else {
      var d := Call(c, calls[0]);
      CallSays(c, calls[0]);
      StaysOpenStep(calls);
      if Closes(calls[0]) {
        NotOpenIgnores(d, calls[1..]);
        assert Said(calls[0]) + [] == Said(calls[0]);
      } else {
        CallsSay(d, calls[1..]);
        assert c.pump.pushed + (Said(calls[0]) + Spoken(calls[1..])) == d.pump.pushed + Spoken(calls[1..]);
      }
    }
  }

  lemma StaysOpenStep(calls: seq<UserCall>)
    requires calls != []
    ensures StaysOpen(calls) <==> !Closes(calls[0]) && StaysOpen(calls[1..])
  {
    hide Closes;
    assert forall i | 0 < i < |calls| :: calls[i] == calls[1..][i - 1];
  }

  /** At most its own shutdown is started; the error is noted even on a closed connection. */
  lemma TerminateSays(c: Conn, e: Error)
    ensures var d := Terminate(c, e);
      && SameCourse(c, d) && d.state == Closed && d.pump == c.pump && d.wasClean == c.wasClean
      && d.ec == (if e == NoError then c.ec else e)
      && (if c.state == Closed then d.pending == c.pending && d.tally.shutdowns == c.tally.shutdowns
          else
            && d.pending == c.pending + multiset{HandleTerminate(if c.state == Connecting then Failed else WasOpen)}
            && d.tally.shutdowns == c.tally.shutdowns + 1)
  {
    hide Shutdown;
    var noted := if e != NoError then c.(ec := e) else c;
    ShutdownSays(noted, if c.state == Connecting then Failed else WasOpen);
  }

  lemma ShutdownSays(c: Conn, status: TerminateStatus)
    ensures var d := Shutdown(c, status);
      && SameCourse(c, d) && d.state == Closed && d.pump == c.pump && d.wasClean == c.wasClean && d.ec == c.ec
      && d.pending == c.pending + multiset{HandleTerminate(status)} && d.tally.shutdowns == c.tally.shutdowns + 1
  {
  }

  // ----- What frames are answered with -----

  /** What an open connection pushes when it reads a frame, or when the processor fails. */
  function Reply(isServer: bool, drop: bool, f: Frame): seq<Msg> {
    match f
    case DataFrame(calls) => Spoken(calls)
    case PingFrame(payload, calls, shouldReply, granted) =>
      Spoken(calls) + if shouldReply && granted && StaysOpen(calls) then [Msg(Pong, payload, false)] else []
    case PongFrame(calls) => Spoken(calls)
    case CloseFrame(wellFormed, payload, granted) =>
      if granted && (wellFormed || !drop) then [Msg(Close, payload, isServer)] else []
    case UnknownControlFrame => []
    case ConsumeError(code, payload, granted) =>
      if granted && !drop then [Msg(Close, payload, Unrecoverable(code))] else []
  }

  /**
   * A ping whose handler calls nothing is answered with a pong exactly when the
   * handler wants one and a buffer is granted.
   */
  lemma PlainPing(isServer: bool, drop: bool, f: Frame)
    ensures f.PingFrame? && f.calls == [] ==>
      Reply(isServer, drop, f) == (if f.shouldReply && f.granted then [Msg(Pong, f.payload, false)] else [])
  {
  }

  /** The state an open connection is in afterwards. */
  function Outcome(drop: bool, f: Frame): State {
    match f
    case DataFrame(calls) => if StaysOpen(calls) then Open else Closing
    case PingFrame(_, calls, _, _) => if StaysOpen(calls) then Open else Closing
    case PongFrame(calls) => if StaysOpen(calls) then Open else Closing
    case CloseFrame(wellFormed, _, granted) => if !wellFormed && drop then Closed else if granted then Closing else Open
    case UnknownControlFrame => Open
    case ConsumeError(_, _, granted) => if granted && !drop then Closing else Closed
  }

  function Read(c: Conn, f: Frame): Conn {
    if f.ConsumeError? then HandleConsumeError(c, f) else ProcessFrame(c, f)
  }

  /** The pong comes after what the ping handler pushes, if it wants one and did not close. */
  lemma PingSays(c: Conn, f: Frame)
    requires c.state == Open && f.PingFrame?
    ensures var d := ProcessFrame(c, f);
      && SameCourse(c, d) && d.pump.pushed == c.pump.pushed + Reply(c.isServer, c.dropOnProtocolError, f)
      && d.state == Outcome(c.dropOnProtocolError, f) && d.ec == c.ec && d.wasClean == c.wasClean
  {
    hide RunCalls, Call, Spoken, StaysOpen;
    CallsSay(c, f.calls);
    var d := RunCalls(c, f.calls);
    assert d.pump.pushed + [] == d.pump.pushed;
    if f.shouldReply {
      if d.state == Open {
        CallSays(d, SendPong(f.payload, f.granted));
      } else {
        ClosedCalls(d, SendPong(f.payload, f.granted));
      }
    }
  }

  lemma ClosedCalls(c: Conn, call: UserCall)
    requires c.state != Open
    ensures Call(c, call) == c
  {
  }

  lemma CloseSays(c: Conn, f: Frame)
    requires c.state == Open && f.CloseFrame?
    ensures var d := ProcessFrame(c, f);
      && SameCourse(c, d) && d.pump.pushed == c.pump.pushed + Reply(c.isServer, c.dropOnProtocolError, f)
      && d.state == Outcome(c.dropOnProtocolError, f)
      && d.ec == (if d.state == Closed then OtherError else c.ec)
      && d.wasClean == (c.wasClean || d.state == Closing)
  {
    hide Terminate, SendCloseFrame;
    TerminateSays(c, OtherError);
    CloseFrameSays(c, f.payload, true, c.isServer, f.granted);
    assert c.pump.pushed + [] == c.pump.pushed;
  }

  lemma ErrorSays(c: Conn, f: Frame)
    requires c.state == Open && f.ConsumeError?
    ensures var d := HandleConsumeError(c, f);
      && SameCourse(c, d) && d.pump.pushed == c.pump.pushed + Reply(c.isServer, c.dropOnProtocolError, f)
      && d.state == Outcome(c.dropOnProtocolError, f)
      && d.ec == (if d.state == Closed then OtherError else c.ec) && d.wasClean == c.wasClean
  {
    hide Terminate, Call, Unrecoverable;
    TerminateSays(c, OtherError);
    CallSays(c, CloseCall(f.code, f.payload, true));
    assert c.pump.pushed + [] == c.pump.pushed;
  }

  /** Every frame an open connection reads is answered as it should be and nothing else is pushed. */
  lemma FrameSays(c: Conn, f: Frame)
    requires c.state == Open
    ensures var d := Read(c, f);
      && SameCourse(c, d)
      && d.pump.pushed == c.pump.pushed + Reply(c.isServer, c.dropOnProtocolError, f)
      && d.state == Outcome(c.dropOnProtocolError, f)
      && d.ec == (if d.state == Closed then OtherError else c.ec)
      && d.wasClean == (c.wasClean || (f.CloseFrame? && d.state == Closing))
  {
    hide RunCalls, Spoken, StaysOpen, HandleConsumeError, SameCourse, Call, ProcessClose;
    match f
    case DataFrame(calls) => CallsSay(c, calls);
    case PingFrame(_, _, _, _) => PingSays(c, f);
    case PongFrame(calls) => CallsSay(c, calls);
    case CloseFrame(_, _, _) => CloseSays(c, f);
    case UnknownControlFrame => Unmoved(c);
    case ConsumeError(_, _, _) => ErrorSays(c, f);
  }

  lemma Unmoved(c: Conn)
    ensures SameCourse(c, c) && c.pump.pushed + [] == c.pump.pushed
  {
  }

  /**
   * While closing only close frames matter: a malformed one drops the connection
   * or is answered, and the first well-formed one acknowledges the close, which
   * ends the connection of a server.
   */
  lemma ClosingFrameSays(c: Conn, f: Frame)
    requires c.state == Closing
    ensures var d := Read(c, f); var malformed := f.CloseFrame? && !f.wellFormed;
      && SameCourse(c, d)
      && d.pump.pushed == c.pump.pushed
           + (if malformed && !c.dropOnProtocolError && f.granted then [Msg(Close, f.payload, c.isServer)] else [])
      && d.state == (if f.ConsumeError? || (malformed && c.dropOnProtocolError)
                        || (f.CloseFrame? && f.wellFormed && !c.wasClean && c.isServer) then Closed else Closing)
      && d.wasClean == (c.wasClean || (f.CloseFrame? && (f.wellFormed || (!c.dropOnProtocolError && f.granted))))
  {
    hide Terminate, RunCalls, Call, ProcessClose;
    assert c.pump.pushed + [] == c.pump.pushed;
    if f.CloseFrame? {
      ClosingCloseSays(c, f);
    } else if f.ConsumeError? {
      TerminateSays(c, OtherError);
      TerminateSays(c, InvalidState);
    }
  }

  lemma ClosingCloseSays(c: Conn, f: Frame)
    requires c.state == Closing && f.CloseFrame?
    ensures var d := ProcessClose(c, f);
      && SameCourse(c, d)
      && d.pump.pushed == c.pump.pushed
           + (if !f.wellFormed && !c.dropOnProtocolError && f.granted then [Msg(Close, f.payload, c.isServer)] else [])
      && (d.state == Closed <==> if f.wellFormed then !c.wasClean && c.isServer else c.dropOnProtocolError)
      && (d.state == Closed || d.state == Closing)
      && d.wasClean == (c.wasClean || f.wellFormed || (!c.dropOnProtocolError && f.granted))
  {
    hide Terminate, SendCloseFrame;
    assert c.pump.pushed + [] == c.pump.pushed;
    TerminateSays(c, OtherError);
    CloseFrameSays(c, f.payload, true, c.isServer, f.granted);
    TerminateSays(c.(wasClean := true), NoError);
  }

  /** A closed connection reads nothing. */
  lemma ClosedFrameSays(c: Conn, f: Frame)
    requires c.state == Closed
    ensures var d := Read(c, f); SameCourse(c, d) && d.state == Closed && d.pump == c.pump && d.pending == c.pending
  {
    hide RunCalls, ProcessClose;
    if f.ConsumeError? {
      hide Terminate;
      TerminateSays(c, OtherError);
      TerminateSays(c, InvalidState);
    }
  }

  // ----- Reads -----

  /** What is pushed for the frames of a read, up to the one that ends the open state. */
  function Replies(isServer: bool, drop: bool, frames: seq<Frame>): seq<Msg> {
    if frames == [] then []
    else
      Reply(isServer, drop, frames[0])
      + if Outcome(drop, frames[0]) == Open then Replies(isServer, drop, frames[1..]) else []
  }

  predicate AllStayOpen(drop: bool, frames: seq<Frame>) {
    forall i | 0 <= i < |frames| :: Outcome(drop, frames[i]) == Open
  }

  /** Nothing that was pushed is taken back by frames that come later. */
  lemma {:induction false} FramesOnlyAdd(c: Conn, frames: seq<Frame>)
    requires c.state != Connecting
    ensures var d := ProcessFrames(c, frames); SameCourse(c, d) && c.pump.pushed <= d.pump.pushed
    decreases |frames|
  {
    hide ProcessFrame, HandleConsumeError, Reply, Outcome;
    if frames == [] {
      PostRead(c);
    } else {
      var d := Read(c, frames[0]);
      assert SameCourse(c, d) && c.pump.pushed <= d.pump.pushed && d.state != Connecting by {
        FrameOnlyAdds(c, frames[0]);
      }
      if !frames[0].ConsumeError? {
        FramesOnlyAdd(d, frames[1..]);
        SameOn(c, d, ProcessFrames(c, frames));
      }
    }
  }

  lemma PostRead(c: Conn)
    ensures var d := Post(c, HandleReadFrame);
      && SameCourse(c, d) && d.pump == c.pump && d.state == c.state
      && d.pending[HandleReadFrame] == c.pending[HandleReadFrame] + 1
  {
  }

  lemma FrameOnlyAdds(c: Conn, f: Frame)
    requires c.state != Connecting
    ensures var d := Read(c, f); SameCourse(c, d) && c.pump.pushed <= d.pump.pushed && d.state != Connecting
  {
    hide Read, Reply;
    match c.state
    case Open => FrameSays(c, f);
    case Closing => ClosingFrameSays(c, f);
    case Closed => ClosedFrameSays(c, f);
  }

  /**
   * The frames of a read are answered one after the other; if none of them ends
   * the open state, that is all that is pushed, and the next read is asked for.
   */
  lemma {:induction false} FramesSay(c: Conn, frames: seq<Frame>)
    requires c.state == Open
    ensures var d := ProcessFrames(c, frames); var said := Replies(c.isServer, c.dropOnProtocolError, frames);
      && c.pump.pushed + said <= d.pump.pushed
      && (AllStayOpen(c.dropOnProtocolError, frames) ==>
            d.state == Open && d.pump.pushed == c.pump.pushed + said && HandleReadFrame in d.pending)
    decreases |frames|
  {
    hide ProcessFrame, HandleConsumeError, Reply, Outcome;
    if frames == [] {
      PostRead(c);
      assert c.pump.pushed + [] == c.pump.pushed;
    } else {
      var drop := c.dropOnProtocolError;
      var d, reply := Read(c, frames[0]), Reply(c.isServer, drop, frames[0]);
      FrameSays(c, frames[0]);
      AllStayOpenStep(drop, frames);
      if frames[0].ConsumeError? {
        ErrorEnds(drop, frames[0]);
        assert reply + [] == reply;
      } else if Outcome(drop, frames[0]) == Open {
        FramesSay(d, frames[1..]);
        assert c.pump.pushed + (reply + Replies(c.isServer, drop, frames[1..])) ==
          d.pump.pushed + Replies(c.isServer, drop, frames[1..]);
      } else {
        assert reply + [] == reply;
        assert d.state != Connecting by { NeverConnecting(drop, frames[0]); }
        FramesOnlyAdd(d, frames[1..]);
      }
    }
  }

  lemma AllStayOpenStep(drop: bool, frames: seq<Frame>)
    requires frames != []
    ensures AllStayOpen(drop, frames) <==> Outcome(drop, frames[0]) == Open && AllStayOpen(drop, frames[1..])
  {
    hide Outcome;
    assert forall i | 0 < i < |frames| :: frames[i] == frames[1..][i - 1];
  }

  lemma ErrorEnds(drop: bool, f: Frame)
    ensures f.ConsumeError? ==> Outcome(drop, f) != Open
  {
  }

  lemma NeverConnecting(drop: bool, f: Frame)
    ensures Outcome(drop, f) != Connecting
  {
  }

  /** Transport errors, and reads that come too early, end the connection; only the expected ones go unnoted. */
  lemma ReadErrorSays(c: Conn, e: Error, frames: seq<Frame>)
    requires e != NoError || c.istate != ProcessConnection
    ensures var d := DoHandleReadFrame(c, e, frames); var noted := if e == NoError then InvalidState else e;
      && SameCourse(c, d) && d.state == Closed && d.pump == c.pump
      && d.ec == (if (c.state == Closed && (noted == Eof || noted == InvalidState))
                     || (c.state == Closing && !c.isServer && noted == Eof) then c.ec else noted)
  {
    hide Terminate, ProcessFrames;
    TerminateSays(c, NoError);
    TerminateSays(c, if e == NoError then InvalidState else e);
  }

  /**
   * Opening: first the open handler's calls, then, if it did not close, what
   * the frames that came with the handshake are answered with.
   */
  lemma OpeningSays(c: Conn, calls: seq<UserCall>, frames: seq<Frame>)
    ensures var d := BecomeOpen(c, calls, frames);
      && d.tally.opens == c.tally.opens + 1 && d.tally.fails == c.tally.fails && d.tally.closes == c.tally.closes
      && d.tally.terminations == c.tally.terminations
      && c.pump.pushed + Spoken(calls) <= d.pump.pushed
      && (StaysOpen(calls) ==>
            c.pump.pushed + Spoken(calls) + Replies(c.isServer, c.dropOnProtocolError, frames) <= d.pump.pushed)
      && (StaysOpen(calls) && AllStayOpen(c.dropOnProtocolError, frames) ==>
            && d.state == Open
            && d.pump.pushed == c.pump.pushed + Spoken(calls) + Replies(c.isServer, c.dropOnProtocolError, frames))
  {
    hide RunCalls, ProcessFrames, Spoken, StaysOpen, Replies, AllStayOpen, Terminate;
    var o := Opened(c);
    CallsSay(o, calls);
    var d := RunCalls(o, calls);
    FramesOnlyAdd(d, frames);
    if d.state == Open {
      FramesSay(d, frames);
    }
  }

  // ----- The opening handshake -----

  predicate Awaits(c: Conn, e: Error, i: IState) {
    e == NoError && c.state == Connecting && c.istate == i
  }

  /**
   * A handshake completion that is not the one awaited ends the connection,
   * or is ignored if that has ended without an error or at the end of input.
   */
  lemma UnawaitedSays(c: Conn, e: Error, i: IState)
    ensures var checked := CheckHandshake(c, e, i);
      && (checked == Proceed <==> Awaits(c, e, i))
      && (checked == Ignore <==> c.state == Closed && (e == NoError || e == Eof))
      && (checked.Fail? ==> checked.e == if e == NoError then InvalidState else e)
  {
  }

  /** A response is being written, and the outcome is noted. */
  predicate Answers(c: Conn, d: Conn, e: Error) {
    && d.state == Connecting && d.istate == ProcessHttpRequest && d.ec == e
    && d.pending == c.pending + multiset{HandleWriteHttpResponse}
  }

  /** What reading a request leaves alone. */
  predicate NothingOpened(c: Conn, d: Conn) {
    && d.pump == c.pump
    && d.tally.opens == c.tally.opens && d.tally.fails == c.tally.fails && d.tally.closes == c.tally.closes
    && d.tally.terminations == c.tally.terminations
  }

  lemma AnswerSays(c: Conn, e: Error)
    requires c.state == Connecting && c.istate == ProcessHttpRequest && e != HttpEnded
    ensures var d := WriteHttpResponse(c, e);
      Answers(c, d, e) && NothingOpened(c, d) && d.switching == c.switching && d.isHttp == c.isHttp
  {
  }

  lemma ErrorAnswerSays(c: Conn)
    requires c.state == Connecting && c.istate == ReadHttpRequest
    ensures var d := WriteHttpResponseError(c, OtherError);
      Answers(c, d, OtherError) && NothingOpened(c, d) && !d.switching && d.isHttp == c.isHttp
  {
    hide Terminate, WriteHttpResponse;
    AnswerSays(c.(istate := ProcessHttpRequest, switching := false), OtherError);
  }

  lemma PlainHttpSays(c: Conn, terminated: bool, reason: Error, deferred: bool, switching: bool)
    requires c.state == Connecting && c.istate == ProcessHttpRequest
    ensures var d := AnswerPlainHttp(c, terminated, reason, deferred, switching);
      && NothingOpened(c, d) && d.isHttp && d.switching == switching
      && if terminated then d.state == Closed && d.ec == (if reason == NoError then c.ec else reason)
         else if deferred then d.state == Connecting && d.pending == c.pending
         else Answers(c, d, NoError)
  {
    hide Terminate, WriteHttpResponse;
    var h := c.(isHttp := true, switching := switching);
    TerminateSays(h, reason);
    if terminated {
      EndedSays(Terminate(h, reason));
    } else {
      AnswerSays(h, NoError);
    }
  }

  lemma EndedSays(c: Conn)
    ensures WriteHttpResponse(c, HttpEnded) == c
  {
  }

  /** What a server does with what it has read of a request. */
  lemma RequestSays(c: Conn, request: Request)
    requires Awaits(c, NoError, ReadHttpRequest)
    ensures var d := DoHandleReadHandshake(c, NoError, request);
      && NothingOpened(c, d)
      && match request
         case BoundsError => d.state == Closed && d.ec == OtherError
         case ParseError => Answers(c, d, OtherError) && !d.switching && d.isHttp == c.isHttp
         case ProcessorError => Answers(c, d, OtherError) && !d.switching && d.isHttp == c.isHttp
         case NeedMoreRequest => d == c.(pending := c.pending + multiset{HandleReadHandshake})
         case WebSocketRequest(accepted, error) =>
           && Answers(c, d, if accepted then NoError else error)
           && d.switching == accepted && d.isHttp == c.isHttp
         case PlainHttp(terminated, reason, deferred, switching) =>
           && d.isHttp && d.switching == switching
           && if terminated then d.state == Closed && d.ec == (if reason == NoError then c.ec else reason)
              else if deferred then d.state == Connecting && d.pending == c.pending
              else Answers(c, d, NoError)
  {
    hide Terminate, WriteHttpResponse, WriteHttpResponseError, AnswerPlainHttp;
    match request
    case BoundsError => TerminateSays(c, OtherError);
    case ParseError => ErrorAnswerSays(c);
    case ProcessorError => ErrorAnswerSays(c);
    case NeedMoreRequest =>
    case WebSocketRequest(accepted, error) =>
      AnswerSays(c.(istate := ProcessHttpRequest, switching := accepted), if accepted then NoError else error);
    case PlainHttp(terminated, reason, deferred, switching) =>
      PlainHttpSays(c.(istate := ProcessHttpRequest), terminated, reason, deferred, switching);
  }

  /** The user handlers called so far: open, fail and close, and shutdowns completed. */
  function Called(c: Conn): (nat, nat, nat, nat) {
    (c.tally.opens, c.tally.fails, c.tally.closes, c.tally.terminations)
  }

  /** A response that switches protocols opens; any other ends the connection, an HTTP one without a failure. */
  lemma ResponseWrittenSays(c: Conn, calls: seq<UserCall>, frames: seq<Frame>)
    requires Awaits(c, NoError, ProcessHttpRequest)
    ensures var d := DoHandleWriteHttpResponse(c, NoError, calls, frames);
      if c.switching then d == BecomeOpen(c, calls, frames) && Called(d) == Called(c).(0 := c.tally.opens + 1)
      else
        && Called(d) == Called(c) && d.state == Closed && d.ec == (if c.isHttp then HttpEnded else c.ec)
        && d.pending == c.pending + multiset{HandleTerminate(Failed)} && d.pump == c.pump
  {
    hide Terminate, BecomeOpen;
    OpeningSays(c, calls, frames);
    TerminateSays(c, if c.isHttp then HttpEnded else c.ec);
  }

  /** A valid response opens, even one whose extension negotiation failed; a bad one ends the connection. */
  lemma ResponseReadSays(c: Conn, response: Response, calls: seq<UserCall>, frames: seq<Frame>)
    requires Awaits(c, NoError, ReadHttpResponse)
    ensures var d := DoHandleReadHttpResponse(c, NoError, response, calls, frames);
      match response
      case NeedMoreResponse => d == c.(pending := c.pending + multiset{HandleReadHttpResponse})
      case ValidHandshake(negotiated) =>
        && d == BecomeOpen(if negotiated then c else Terminate(c, OtherError), calls, frames)
        && Called(d) == Called(c).(0 := c.tally.opens + 1)
      case _ => Called(d) == Called(c) && d.state == Closed && d.ec == OtherError && d.pump == c.pump
  {
    hide Terminate, BecomeOpen;
    TerminateSays(c, OtherError);
    if response.ValidHandshake? {
      OpeningSays(if response.negotiated then c else Terminate(c, OtherError), calls, frames);
    }
  }

  /** A transport that is ready is read from or written to, with the handshake timer set. */
  lemma TransportReadySays(c: Conn, e: Error, requestOk: bool)
    ensures var d := DoHandleTransportInit(c, e, requestOk);
      && Called(d) == Called(c) && d.pump == c.pump
      && if e != NoError || c.istate != TransportInit then
           d.state == Closed && d.ec == if c.istate == TransportInit then e else InvalidState
         else
           && d.state == c.state && d.istate == (if c.isServer then ReadHttpRequest else WriteHttpRequest)
           && (c.isServer ==> d.pending == c.pending + multiset{OpenTimer, HandleReadHandshake})
           && (!c.isServer && requestOk ==> d.pending == c.pending + multiset{OpenTimer, HandleSendHttpRequest})
           && (!c.isServer && !requestOk ==> d.pending == c.pending)
  {
    hide Terminate;
    TerminateSays(c, if c.istate != TransportInit then InvalidState else e);
  }

  // ----- Which handler an event calls -----

  /** The open handler is called for a response that was written and switches protocols, or read and valid. */
  predicate CallsOpen(c: Conn, ev: Event) {
    || (ev.OnWriteHttpResponse? && Awaits(c, ev.e, ProcessHttpRequest) && c.switching)
    || (ev.OnReadHttpResponse? && Awaits(c, ev.e, ReadHttpResponse) && ev.response.ValidHandshake?)
  }

  /** The fail handler is called when a failed connection has shut down, unless it was an HTTP one that is done. */
  predicate CallsFail(c: Conn, ev: Event) {
    ev.OnTerminate? && ev.status == Failed && c.ec != HttpEnded
  }

  predicate CallsClose(ev: Event) {
    ev.OnTerminate? && ev.status == WasOpen
  }

  lemma ReadCallsNone(c: Conn, e: Error, frames: seq<Frame>)
    ensures Called(DoHandleReadFrame(c, e, frames)) == Called(c)
  {
    hide ProcessFrames;
    if e != NoError || c.istate != ProcessConnection {
      hide DoHandleReadFrame;
      ReadErrorSays(c, e, frames);
    } else {
      FramesCallNone(c, frames);
    }
  }

  lemma {:induction false} FramesCallNone(c: Conn, frames: seq<Frame>)
    ensures Called(ProcessFrames(c, frames)) == Called(c)
    decreases |frames|
  {
    hide ProcessFrame, HandleConsumeError;
    if frames == [] {
      PostRead(c);
    } else {
      FrameCallsNone(c, frames[0]);
      if !frames[0].ConsumeError? {
        FramesCallNone(ProcessFrame(c, frames[0]), frames[1..]);
      }
    }
  }

  lemma FrameCallsNone(c: Conn, f: Frame)
    ensures Called(Read(c, f)) == Called(c)
  {
    hide Read, Reply, Outcome;
    match c.state
    case Open => FrameSays(c, f);
    case Closing => ClosingFrameSays(c, f);
    case Closed => ClosedFrameSays(c, f);
    case Connecting => ConnectingFrameSays(c, f);
  }

  lemma ConnectingFrameSays(c: Conn, f: Frame)
    requires c.state == Connecting
    ensures Called(Read(c, f)) == Called(c)
  {
    hide Terminate, RunCalls, SendCloseFrame, Call;
    TerminateSays(c, OtherError);
    TerminateSays(c, InvalidState);
    if f.CloseFrame? {
      CloseFrameSays(c, f.payload, true, c.isServer, f.granted);
    }
  }

  lemma CallCallsNone(c: Conn, call: UserCall)
    ensures Called(Call(c, call)) == Called(c)
  {
    hide Call, Said, Closes;
    if c.state == Open {
      CallSays(c, call);
    } else {
      ClosedCalls(c, call);
    }
  }

  lemma HandshakeCalls(c: Conn, ev: Event)
    requires ev.OnReadHandshake? || ev.OnWriteHttpResponse? || ev.OnSendHttpRequest? || ev.OnReadHttpResponse?
    ensures Called(Deliver(c, ev)) == Called(c).(0 := c.tally.opens + if CallsOpen(c, ev) then 1 else 0)
  {
    hide Terminate, CheckHandshake, ConsumeRequest, BecomeOpen;
    var i := match ev
      case OnReadHandshake(_, _) => ReadHttpRequest
      case OnWriteHttpResponse(_, _, _) => ProcessHttpRequest
      case OnSendHttpRequest(_) => WriteHttpRequest
      case OnReadHttpResponse(_, _, _, _) => ReadHttpResponse;
    UnawaitedSays(c, ev.e, i);
    if !Awaits(c, ev.e, i) {
      TerminateSays(c, if ev.e == NoError then InvalidState else ev.e);
    } else {
      match ev
      case OnReadHandshake(_, request) => RequestSays(c, request);
      case OnWriteHttpResponse(_, calls, frames) => ResponseWrittenSays(c, calls, frames);
      case OnSendHttpRequest(_) =>
      case OnReadHttpResponse(_, response, calls, frames) => ResponseReadSays(c, response, calls, frames);
    }
  }

  lemma EndCalls(c: Conn, status: TerminateStatus, calls: seq<UserCall>)
    ensures Called(DoHandleTerminate(c, status, calls)) == (
      c.tally.opens,
      c.tally.fails + (if status == Failed && c.ec != HttpEnded then 1 else 0),
      c.tally.closes + (if status == WasOpen then 1 else 0),
      c.tally.terminations + 1)
  {
    hide RunCalls;
    RunCallsCallNone(c.(tally := c.tally.(fails := c.tally.fails + 1)), calls);
    RunCallsCallNone(c.(tally := c.tally.(closes := c.tally.closes + 1)), calls);
  }

  lemma RunCallsCallNone(c: Conn, calls: seq<UserCall>)
    ensures Called(RunCalls(c, calls)) == Called(c)
  {
    hide RunCalls, Spoken;
    if c.state == Open {
      CallsSay(c, calls);
    } else {
      NotOpenIgnores(c, calls);
    }
  }

  lemma OthersCallNone(c: Conn, ev: Event)
    requires ev.User? || ev.Start? || ev.OnTransportInit? || ev.OnReadFrame? || ev.OnDispatchedWrite?
      || ev.OnWriteFrame? || ev.OnOpenTimer? || ev.OnCloseTimer?
    requires ev.OnWriteFrame? ==> c.pump.currentMsgs != []
    ensures Called(Deliver(c, ev)) == Called(c)
  {
    hide Called, Call, DoStart, DoHandleReadFrame, DoHandleTransportInit, DoWriteFrame, DoHandleWriteFrame, DoTimeout;
    match ev
    case User(call) => CallCallsNone(c, call);
    case Start => StartCallsNone(c);
    case OnTransportInit(e, requestOk) => TransportReadyCallsNone(c, e, requestOk);
    case OnReadFrame(e, frames) => ReadCallsNone(c, e, frames);
    case OnDispatchedWrite => WriteCallsNone(c);
    case OnWriteFrame(e) => WriteDoneCallsNone(c, e);
    case OnOpenTimer(e) => TimeoutCallsNone(c, e);
    case OnCloseTimer(e) => TimeoutCallsNone(c, e);
  }

  lemma StartCallsNone(c: Conn)
    ensures Called(DoStart(c)) == Called(c)
  {
    hide Terminate;
    TerminateSays(c, InvalidState);
  }

  lemma TransportReadyCallsNone(c: Conn, e: Error, requestOk: bool)
    ensures Called(DoHandleTransportInit(c, e, requestOk)) == Called(c)
  {
    hide DoHandleTransportInit;
    TransportReadySays(c, e, requestOk);
  }

  lemma WriteCallsNone(c: Conn)
    ensures Called(DoWriteFrame(c)) == Called(c)
  {
    hide Pop;
  }

  lemma WriteDoneCallsNone(c: Conn, e: Error)
    requires c.pump.currentMsgs != []
    ensures Called(DoHandleWriteFrame(c, e)) == Called(c)
  {
    hide Terminate;
    TerminateSays(c.(pump := c.pump.(currentMsgs := [])), e);
    TerminateSays(c.(pump := c.pump.(currentMsgs := [])), NoError);
  }

  lemma TimeoutCallsNone(c: Conn, e: TransportError)
    ensures Called(DoTimeout(c, e)) == Called(c)
  {
    hide Terminate;
    TerminateSays(c, OtherError);
  }

  /** Each event calls at most one of the three handlers, and exactly the one that is called for. */
  lemma HandlersCalled(c: Conn, ev: Event)
    requires Enabled(c, ev)
    ensures Called(Apply(c, ev)) == (
      c.tally.opens + (if CallsOpen(c, ev) then 1 else 0),
      c.tally.fails + (if CallsFail(c, ev) then 1 else 0),
      c.tally.closes + (if CallsClose(ev) then 1 else 0),
      c.tally.terminations + (if ev.OnTerminate? then 1 else 0))
  {
    hide Deliver;
    var d := Consume(c, ev);
    if ev.OnTerminate? {
      EndCalls(d, ev.status, ev.calls);
      DeliverEnd(d, ev);
    } else if ev.OnReadHandshake? || ev.OnWriteHttpResponse? || ev.OnSendHttpRequest? || ev.OnReadHttpResponse? {
      HandshakeCalls(d, ev);
    } else {
      OthersCallNone(d, ev);
    }
  }

  lemma DeliverEnd(c: Conn, ev: Event)
    requires ev.OnTerminate?
    ensures Deliver(c, ev) == DoHandleTerminate(c, ev.status, ev.calls)
  {
  }

  // ----- A server's answer -----

  /** Requests that are answered at once. */
  predicate IsAnswered(request: Request) {
    match request
    case ParseError => true
    case ProcessorError => true
    case WebSocketRequest(_, _) => true
    case PlainHttp(terminated, _, deferred, _) => !terminated && !deferred
    case _ => false
  }

  /** Whether the answer switches protocols. */
  predicate Switches(request: Request) {
    match request
    case WebSocketRequest(accepted, _) => accepted
    case PlainHttp(_, _, _, switching) => switching
    case _ => false
  }

  lemma RequestStep(c: Conn, request: Request)
    requires Awaits(c, NoError, ReadHttpRequest) && HandleReadHandshake in c.pending && IsAnswered(request) && !c.isHttp
    ensures var ev := OnReadHandshake(NoError, request);
      && Enabled(c, ev)
      && var d := Apply(c, ev);
        && Awaits(d, NoError, ProcessHttpRequest) && HandleWriteHttpResponse in d.pending && Called(d) == Called(c)
        && d.switching == Switches(request) && d.isHttp == request.PlainHttp? && d.ec != HttpEnded
  {
    hide DoHandleReadHandshake;
    RequestSays(Consume(c, OnReadHandshake(NoError, request)), request);
  }

  lemma ResponseStep(c: Conn, calls: seq<UserCall>, frames: seq<Frame>)
    requires Awaits(c, NoError, ProcessHttpRequest) && HandleWriteHttpResponse in c.pending
    ensures var ev := OnWriteHttpResponse(NoError, calls, frames);
      && Enabled(c, ev)
      && var d := Apply(c, ev);
        if c.switching then Called(d) == Called(c).(0 := c.tally.opens + 1)
        else
          && Called(d) == Called(c) && HandleTerminate(Failed) in d.pending
          && d.ec == (if c.isHttp then HttpEnded else c.ec)
  {
    hide DoHandleWriteHttpResponse, BecomeOpen;
    ResponseWrittenSays(Consume(c, OnWriteHttpResponse(NoError, calls, frames)), calls, frames);
  }

  /**
   * A request that is answered calls the open handler if the answer switches
   * protocols; otherwise, once the connection has shut down, the fail handler,
   * unless it was a plain HTTP request, which calls neither.
   */
  lemma AnswerDecides(c: Conn, request: Request, calls: seq<UserCall>, frames: seq<Frame>, last: seq<UserCall>)
    requires Awaits(c, NoError, ReadHttpRequest) && HandleReadHandshake in c.pending && IsAnswered(request) && !c.isHttp
    ensures var evs := [OnReadHandshake(NoError, request), OnWriteHttpResponse(NoError, calls, frames)];
      && Enabled(c, evs[0]) && Enabled(Apply(c, evs[0]), evs[1])
      && var d := Apply(Apply(c, evs[0]), evs[1]);
        if Switches(request) then Called(d) == Called(c).(0 := c.tally.opens + 1)
        else
          && Called(d) == Called(c) && Enabled(d, OnTerminate(Failed, last))
          && Called(Apply(d, OnTerminate(Failed, last))) == Called(c).(
               1 := c.tally.fails + (if request.PlainHttp? then 0 else 1), 3 := c.tally.terminations + 1)
  {
    hide Apply, Switches, IsAnswered;
    RequestStep(c, request);
    var d := Apply(c, OnReadHandshake(NoError, request));
    ResponseStep(d, calls, frames);
    if !Switches(request) {
      HandlersCalled(Apply(d, OnWriteHttpResponse(NoError, calls, frames)), OnTerminate(Failed, last));
    }
  }
}
