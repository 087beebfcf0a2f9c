/**
 * What every run keeps about closing, with no assumption on the run: nothing
 * goes back, and nothing but close frames is pushed after a close frame.
 *
 * A second close frame is pushed by one kind of event only, and a run pushes at
 * most one close frame if and only if no event of it is of that kind.
 */
module Silence {
  import opened SessionModel

  // ----- Close frames among the pushed messages -----

  predicate HasClose(q: seq<Msg>) {
    exists i | 0 <= i < |q| :: q[i].kind == Close
  }

  /** After a close frame come only close frames. */
  predicate OnlyClosesAfterClose(q: seq<Msg>) {
    forall i, j | 0 <= i < j < |q| && q[i].kind == Close :: q[j].kind == Close
  }

  /** A close frame, if there is one, is the very last message. */
  predicate CloseOnlyLast(q: seq<Msg>) {
    forall i | 0 <= i < |q| - 1 :: q[i].kind != Close
  }

  // ----- When a second close frame is pushed -----

  /** A malformed close frame that arrives while closing is answered again. */
  predicate AnswersAgain(c: Conn, f: Frame) {
    f.CloseFrame? && !f.wellFormed && f.granted && c.state == Closing && !c.dropOnProtocolError
  }

  predicate AnswersAgainIn(c: Conn, frames: seq<Frame>)
    decreases |frames|
  {
    && frames != []
    && !frames[0].ConsumeError?
    && (AnswersAgain(c, frames[0]) || AnswersAgainIn(ProcessFrame(c, frames[0]), frames[1..]))
  }

  /** The same for a handler: one of the frames it reads is answered again. */
  predicate ReadsSecondClose(c: Conn, ev: Event) {
    match ev
    case OnReadFrame(e, frames) =>
      e == NoError && c.istate == ProcessConnection && AnswersAgainIn(c, frames)
    case OnWriteHttpResponse(e, calls, frames) =>
      CheckHandshake(c, e, ProcessHttpRequest) == Proceed && c.switching &&
        AnswersAgainIn(RunCalls(Opened(c), calls), frames)
    case OnReadHttpResponse(e, response, calls, frames) =>
      && CheckHandshake(c, e, ReadHttpResponse) == Proceed && response.ValidHandshake?
      && AnswersAgainIn(RunCalls(Opened(if response.negotiated then c else Terminate(c, OtherError)), calls), frames)
    case _ => false
  }

  predicate PushesSecondClose(c: Conn, ev: Event) {
    ReadsSecondClose(Consume(c, ev), ev)
  }

  predicate PushesSecondCloseIn(c: Conn, evs: seq<Event>)
    requires IsRun(c, evs)
    decreases |evs|
  {
    evs != [] && (PushesSecondClose(c, evs[0]) || PushesSecondCloseIn(Apply(c, evs[0]), evs[1..]))
  }

  // ----- The invariant -----

  /** `strict` is the variant for runs without a second close frame. */
  predicate Silent(q: seq<Msg>, s: State, strict: bool) {
    && OnlyClosesAfterClose(q)
    && (s == Connecting || s == Open ==> !HasClose(q))
    && (s == Closing ==> HasClose(q))
    && (strict ==> CloseOnlyLast(q))
  }

  /** A batch given up without releasing the flag leaves a closed connection. */
  predicate FlagReleased(p: Pump, s: State) {
    p.writeFlag && p.currentMsgs == [] ==> s == Closed
  }

  predicate Tracked(c: Conn) {
    c.history != [] && c.history[|c.history| - 1] == c.state
  }

  predicate Quiet(c: Conn, strict: bool) {
    && Silent(c.pump.pushed, c.state, strict)
    && FlagReleased(c.pump, c.state)
    && Tracked(c)
    && (c.state == Connecting ==> c.istate != ProcessConnection)
  }

  function EndsOwed(c: Conn, status: TerminateStatus): nat {
    c.pending[HandleTerminate(status)]
  }

  /** What no handler but that of a completed shutdown takes back. */
  predicate Later(c: Conn, d: Conn) {
    && c.pump.pushed <= d.pump.pushed
    && c.history <= d.history
    && c.tally.opens <= d.tally.opens
    && c.tally.fails <= d.tally.fails
    && EndsOwed(c, Failed) <= EndsOwed(d, Failed)
    && (d.state == Connecting ==> c.state == Connecting)
    && (d.ec == HttpEnded ==> c.ec == HttpEnded || c.state == Connecting)
    && d.dropOnProtocolError == c.dropOnProtocolError
  }

  predicate Step(c: Conn, d: Conn, strict: bool) {
    Quiet(d, strict) && Later(c, d)
  }

  lemma Onward(c: Conn, d: Conn, e: Conn)
    requires Later(c, d) && Later(d, e)
    ensures Later(c, e)
  {
  }

  // ----- Primitives -----

  lemma PushSilent(q: seq<Msg>, m: Msg, s: State, t: State, strict: bool)
    requires Silent(q, s, strict)
    requires m.kind != Close ==> s == Open && t == Open
    requires m.kind == Close ==> (t == Closing || t == Closed) && (s == Open || !strict)
    ensures Silent(q + [m], t, strict)
  {
    var r := q + [m];
    assert r[|r| - 1] == m;
    assert forall i | 0 <= i < |q| :: r[i] == q[i];
    assert HasClose(r) <==> HasClose(q) || m.kind == Close;
  }

  /** A message is pushed while open, or a close frame on the way to closing. */
  lemma PushStep(c: Conn, d: Conn, m: Msg, strict: bool)
    requires Quiet(c, strict) && Later(c, d) && Tracked(d) && d.pump == c.pump
    requires m.kind != Close ==> c.state == Open && d.state == Open
    requires m.kind == Close ==> d.state == Closing && (c.state == Open || (c.state == Closing && !strict))
    ensures Step(c, PushAndWake(d, m), strict)
  {
    PushSilent(c.pump.pushed, m, c.state, d.state, strict);
    hide Silent;
  }

  /** Owing one more callback. */
  lemma PostStep(c: Conn, cb: Callback)
    ensures Later(c, Post(c, cb))
    ensures Post(c, cb) == c.(pending := Post(c, cb).pending)
  {
  }

  lemma WakeStep(c: Conn)
    ensures Later(c, Wake(c)) && Wake(c) == c.(pending := Wake(c).pending)
  {
    hide Later;
    PostStep(c, WriteFrame);
    Stays(c);
  }

  lemma SameQuiet(c: Conn, d: Conn, strict: bool)
    requires Quiet(c, strict) && d == c.(pending := d.pending)
    ensures Quiet(d, strict)
  {
    hide Silent;
  }

  lemma ShutdownStep(c: Conn, status: TerminateStatus)
    ensures Later(c, Shutdown(c, status)) && Tracked(Shutdown(c, status))
    ensures Shutdown(c, status).state == Closed && Shutdown(c, status).pump == c.pump
  {
  }

  /** Terminating always ends in Closed; the batch under way may have been given up. */
  lemma TerminateStep(c: Conn, e: Error, strict: bool)
    requires Silent(c.pump.pushed, c.state, strict) && Tracked(c)
    requires e == HttpEnded ==> c.state == Connecting
    ensures Step(c, Terminate(c, e), strict)
    ensures Terminate(c, e).state == Closed && Terminate(c, e).pump == c.pump
  {
    hide OnlyClosesAfterClose, HasClose, CloseOnlyLast, Shutdown;
    var d := if e != NoError then c.(ec := e) else c;
    assert Later(c, d);
    hide Later;
    if c.state != Closed {
      var status := if c.state == Connecting then Failed else WasOpen;
      ShutdownStep(d, status);
      Onward(c, d, Shutdown(d, status));
    }
  }

  lemma CloseFrameStep(c: Conn, payload: string, ack: bool, terminal: bool, granted: bool, strict: bool)
    requires Quiet(c, strict) && (c.state == Open || (c.state == Closing && (granted ==> !strict)))
    ensures Step(c, SendCloseFrame(c, payload, ack, terminal, granted), strict)
    ensures SendCloseFrame(c, payload, ack, terminal, granted).istate == c.istate
  {
    hide Silent;
    if granted {
      PushStep(c, BeginClosing(c, ack), Msg(Close, payload, terminal), strict);
    }
  }

  lemma DataStep(c: Conn, m: Msg, strict: bool)
    requires Quiet(c, strict) && c.state == Open && m.kind != Close
    ensures Step(c, PushAndWake(c, m), strict) && PushAndWake(c, m).istate == c.istate
  {
    hide Silent;
    PushStep(c, c, m, strict);
  }

  lemma CallStep(c: Conn, call: UserCall, strict: bool)
    requires Quiet(c, strict)
    ensures Step(c, Call(c, call), strict) && Call(c, call).istate == c.istate
  {
    hide Quiet, Later, SendCloseFrame, PushAndWake, TerminalCode;
    Stays(c);
    if c.state == Open {
      match call
      case SendPrepared(payload, terminal) => DataStep(c, Msg(Data, payload, terminal), strict);
      case Send(payload, _) => DataStep(c, Msg(Data, payload, false), strict);
      case SendPing(payload, _) => DataStep(c, Msg(Ping, payload, false), strict);
      case SendPong(payload, _) => DataStep(c, Msg(Pong, payload, false), strict);
      case CloseCall(code, payload, granted) => CloseFrameStep(c, payload, false, TerminalCode(code), granted, strict);
    }
  }

  lemma {:induction false} RunCallsStep(c: Conn, calls: seq<UserCall>, strict: bool)
    requires Quiet(c, strict)
    ensures Step(c, RunCalls(c, calls), strict) && RunCalls(c, calls).istate == c.istate
    decreases |calls|
  {
    hide Quiet, Later, Call;
    if calls == [] {
      Stays(c);
    } else {
      CallStep(c, calls[0], strict);
      RunCallsStep(Call(c, calls[0]), calls[1..], strict);
      Onward(c, Call(c, calls[0]), RunCalls(c, calls));
    }
  }

  lemma Stays(c: Conn)
    ensures Later(c, c)
  {
  }

  // ----- Reading -----

  lemma ProcessCloseStep(c: Conn, f: Frame, strict: bool)
    requires Quiet(c, strict) && f.CloseFrame? && (strict ==> !AnswersAgain(c, f))
    requires c.state == Open || c.state == Closing
    ensures Step(c, ProcessClose(c, f), strict)
  {
    hide Silent, SendCloseFrame, Terminate;
    if !f.wellFormed {
      if c.dropOnProtocolError {
        TerminateStep(c, OtherError, strict);
      } else {
        CloseFrameStep(c, f.payload, true, c.isServer, f.granted, strict);
      }
    } else if c.state == Open {
      CloseFrameStep(c, f.payload, true, c.isServer, f.granted, strict);
    } else {
      TerminateStep(c.(wasClean := true), NoError, strict);
    }
  }

  lemma ProcessFrameStep(c: Conn, f: Frame, strict: bool)
    requires Quiet(c, strict) && !f.ConsumeError? && (strict ==> !AnswersAgain(c, f))
    requires c.state != Connecting
    ensures Step(c, ProcessFrame(c, f), strict)
  {
    hide Quiet, Later, RunCalls, Call, ProcessClose, AnswersAgain;
    Stays(c);
    match f
    case DataFrame(calls) => RunCallsStep(c, calls, strict);
    case PingFrame(payload, calls, _, granted) =>
      RunCallsStep(c, calls, strict);
      CallStep(RunCalls(c, calls), SendPong(payload, granted), strict);
      Onward(c, RunCalls(c, calls), Call(RunCalls(c, calls), SendPong(payload, granted)));
    case PongFrame(calls) => RunCallsStep(c, calls, strict);
    case CloseFrame(_, _, _) =>
      if c.state != Closed {
        ProcessCloseStep(c, f, strict);
      }
    case UnknownControlFrame =>
  }

  lemma ConsumeErrorStep(c: Conn, f: Frame, strict: bool)
    requires Quiet(c, strict) && f.ConsumeError?
    ensures Step(c, HandleConsumeError(c, f), strict)
  {
    hide Silent, Terminate, Call;
    TerminateStep(c, OtherError, strict);
    TerminateStep(c, InvalidState, strict);
    CallStep(c, CloseCall(f.code, f.payload, true), strict);
  }

  lemma {:induction false} ProcessFramesStep(c: Conn, frames: seq<Frame>, strict: bool)
    requires Quiet(c, strict) && c.state != Connecting && (strict ==> !AnswersAgainIn(c, frames))
    ensures Step(c, ProcessFrames(c, frames), strict)
    decreases |frames|
  {
    hide ProcessFrame, HandleConsumeError, AnswersAgain, Silent;
    if frames == [] {
    } else if frames[0].ConsumeError? {
      ConsumeErrorStep(c, frames[0], strict);
    } else {
      ProcessFrameStep(c, frames[0], strict);
      ProcessFramesStep(ProcessFrame(c, frames[0]), frames[1..], strict);
      Onward(c, ProcessFrame(c, frames[0]), ProcessFrames(c, frames));
    }
  }

  lemma ReadFrameStep(c: Conn, e: Error, frames: seq<Frame>, strict: bool)
    requires Quiet(c, strict) && e != HttpEnded
    requires strict && e == NoError && c.istate == ProcessConnection ==> !AnswersAgainIn(c, frames)
    ensures Step(c, DoHandleReadFrame(c, e, frames), strict)
  {
    hide Silent, ProcessFrames, Terminate, AnswersAgainIn;
    var ecm := if e == NoError && c.istate != ProcessConnection then InvalidState else e;
    if ecm == NoError {
      ProcessFramesStep(c, frames, strict);
    } else {
      TerminateStep(c, NoError, strict);
      TerminateStep(c, ecm, strict);
    }
  }

  /** Opening, from whatever state: nothing has been closed yet. */
  lemma BecomeOpenStep(c: Conn, calls: seq<UserCall>, frames: seq<Frame>, strict: bool)
    requires Silent(c.pump.pushed, Open, strict) && FlagReleased(c.pump, Open)
    requires strict ==> !AnswersAgainIn(RunCalls(Opened(c), calls), frames)
    ensures Step(c, BecomeOpen(c, calls, frames), strict)
    ensures Later(Opened(c), BecomeOpen(c, calls, frames))
  {
    hide RunCalls, DoHandleReadFrame, AnswersAgainIn, Silent;
    var o := Opened(c);
    RunCallsStep(o, calls, strict);
    ReadFrameStep(RunCalls(o, calls), NoError, frames, strict);
    hide Quiet;
    assert Later(c, o);
    hide Opened, Later;
    Onward(o, RunCalls(o, calls), BecomeOpen(c, calls, frames));
    Onward(c, o, BecomeOpen(c, calls, frames));
  }

  // ----- Handshake and shutdown -----

  lemma WriteHttpResponseStep(c: Conn, e: Error, calls: seq<UserCall>, frames: seq<Frame>, strict: bool)
    requires Quiet(c, strict) && e != HttpEnded
    requires strict && CheckHandshake(c, e, ProcessHttpRequest) == Proceed && c.switching ==>
      !AnswersAgainIn(RunCalls(Opened(c), calls), frames)
    ensures Step(c, DoHandleWriteHttpResponse(c, e, calls, frames), strict)
  {
    hide OnlyClosesAfterClose, HasClose, CloseOnlyLast, BecomeOpen, Terminate, AnswersAgainIn, RunCalls, Opened;
    match CheckHandshake(c, e, ProcessHttpRequest)
    case Ignore =>
    case Fail(ecm) => TerminateStep(c, ecm, strict);
    case Proceed =>
      if c.switching {
        BecomeOpenStep(c, calls, frames, strict);
      } else {
        TerminateStep(c, if c.isHttp then HttpEnded else c.ec, strict);
      }
  }

  lemma ReadHttpResponseStep(c: Conn, e: Error, response: Response, calls: seq<UserCall>, frames: seq<Frame>,
    strict: bool)
    requires Quiet(c, strict) && e != HttpEnded
    requires strict && CheckHandshake(c, e, ReadHttpResponse) == Proceed && response.ValidHandshake? ==>
      !AnswersAgainIn(RunCalls(Opened(if response.negotiated then c else Terminate(c, OtherError)), calls), frames)
    ensures Step(c, DoHandleReadHttpResponse(c, e, response, calls, frames), strict)
  {
    hide OnlyClosesAfterClose, HasClose, CloseOnlyLast, BecomeOpen, Terminate, AnswersAgainIn, RunCalls, Opened;
    match CheckHandshake(c, e, ReadHttpResponse)
    case Ignore =>
    case Fail(ecm) => TerminateStep(c, ecm, strict);
    case Proceed =>
      TerminateStep(c, OtherError, strict);
      match response
      case ValidHandshake(negotiated) =>
        var d := if negotiated then c else Terminate(c, OtherError);
        BecomeOpenStep(d, calls, frames, strict);
        hide Silent, FlagReleased, Tracked;
        Stays(c);
        Onward(c, d, BecomeOpen(d, calls, frames));
      case _ =>
  }

  lemma WriteResponseStep(c: Conn, e: Error, strict: bool)
    requires Quiet(c, strict)
    ensures Step(c, WriteHttpResponse(c, e), strict)
  {
    hide Silent, Post;
    Stays(c);
    if e != HttpEnded {
      var d := c.(ec := e);
      assert Step(c, d, strict);
      PostStep(d, HandleWriteHttpResponse);
      SameQuiet(d, Post(d, HandleWriteHttpResponse), strict);
      hide Later, Quiet;
      Onward(c, d, Post(d, HandleWriteHttpResponse));
    }
  }

  lemma WriteErrorResponseStep(c: Conn, e: Error, strict: bool)
    requires Quiet(c, strict)
    ensures Step(c, WriteHttpResponseError(c, e), strict)
  {
    hide Silent, Terminate, WriteHttpResponse;
    var d := c.(istate := ProcessHttpRequest, switching := false);
    assert Step(c, d, strict);
    TerminateStep(c, InvalidState, strict);
    hide Later, Quiet;
    WriteResponseStep(d, e, strict);
    Onward(c, d, WriteHttpResponse(d, e));
  }

  /** What Later and Quiet say does not change while a request is read. */
  lemma StageStep(c: Conn, d: Conn, strict: bool)
    requires Quiet(c, strict) && d == c.(istate := ProcessHttpRequest, isHttp := d.isHttp, switching := d.switching)
    ensures Step(c, d, strict)
  {
    hide Silent;
  }

  lemma PlainHttpStep(c: Conn, terminated: bool, reason: Error, deferred: bool, switching: bool, strict: bool)
    requires Quiet(c, strict) && c.state == Connecting && c.istate == ProcessHttpRequest
    ensures Step(c, AnswerPlainHttp(c, terminated, reason, deferred, switching), strict)
  {
    hide Silent, FlagReleased, Terminate, WriteHttpResponse;
    var h := c.(isHttp := true, switching := switching);
    StageStep(c, h, strict);
    TerminateStep(h, reason, strict);
    hide Quiet, Later;
    var d := if terminated then Terminate(h, reason) else h;
    Stays(h);
    Onward(c, h, d);
    var e := if d.state == Closed then HttpEnded else NoError;
    WriteResponseStep(d, e, strict);
    Onward(c, d, WriteHttpResponse(d, e));
  }

  lemma RequestStep(c: Conn, request: Request, strict: bool)
    requires Quiet(c, strict) && c.state == Connecting
    ensures Step(c, ConsumeRequest(c, request), strict)
  {
    hide Silent, FlagReleased, Later, Terminate, WriteHttpResponse, WriteHttpResponseError, AnswerPlainHttp, Post;
    match request
    case BoundsError => TerminateStep(c, OtherError, strict);
    case ParseError => WriteErrorResponseStep(c, OtherError, strict);
    case ProcessorError => WriteErrorResponseStep(c, OtherError, strict);
    case NeedMoreRequest =>
      PostStep(c, HandleReadHandshake);
      SameQuiet(c, Post(c, HandleReadHandshake), strict);
    case WebSocketRequest(accepted, error) =>
      var d := c.(istate := ProcessHttpRequest, switching := accepted);
      var e := if accepted then NoError else error;
      StageStep(c, d, strict);
      WriteResponseStep(d, e, strict);
      Onward(c, d, WriteHttpResponse(d, e));
    case PlainHttp(terminated, reason, deferred, switching) =>
      var d := c.(istate := ProcessHttpRequest);
      StageStep(c, d, strict);
      PlainHttpStep(d, terminated, reason, deferred, switching, strict);
      Onward(c, d, AnswerPlainHttp(d, terminated, reason, deferred, switching));
  }

  lemma ReadHandshakeStep(c: Conn, e: Error, request: Request, strict: bool)
    requires Quiet(c, strict) && e != HttpEnded
    ensures Step(c, DoHandleReadHandshake(c, e, request), strict)
  {
    hide Silent, Later, Terminate, ConsumeRequest;
    Stays(c);
    match CheckHandshake(c, e, ReadHttpRequest)
    case Ignore =>
    case Fail(ecm) => TerminateStep(c, ecm, strict);
    case Proceed => RequestStep(c, request, strict);
  }

  lemma StartStep(c: Conn, strict: bool)
    requires Quiet(c, strict)
    ensures Step(c, DoStart(c), strict)
  {
    hide Silent, Terminate;
    TerminateStep(c, InvalidState, strict);
  }

  lemma TransportInitStep(c: Conn, e: Error, requestOk: bool, strict: bool)
    requires Quiet(c, strict) && e != HttpEnded
    ensures Step(c, DoHandleTransportInit(c, e, requestOk), strict)
  {
    hide Silent, Terminate, PostAll;
    TerminateStep(c, if c.istate != TransportInit then InvalidState else e, strict);
    if c.istate == TransportInit {
      HandshakeStep(c, ReadHttpRequest, multiset{OpenTimer, HandleReadHandshake}, strict);
      HandshakeStep(c, WriteHttpRequest, multiset{OpenTimer, HandleSendHttpRequest}, strict);
    }
  }

  lemma HandshakeStep(c: Conn, next: IState, cbs: multiset<Callback>, strict: bool)
    requires Quiet(c, strict) && next != ProcessConnection
    ensures Step(c, c.(istate := next), strict) && Step(c, PostAll(c.(istate := next), cbs), strict)
  {
    hide Silent;
  }

  lemma SendHttpRequestStep(c: Conn, e: Error, strict: bool)
    requires Quiet(c, strict) && e != HttpEnded
    ensures Step(c, DoHandleSendHttpRequest(c, e), strict)
  {
    hide Silent, Terminate;
    TerminateStep(c, InvalidState, strict);
    TerminateStep(c, e, strict);
  }

  lemma TimeoutStep(c: Conn, e: Error, strict: bool)
    requires Quiet(c, strict)
    ensures Step(c, DoTimeout(c, e), strict)
  {
    hide Silent, Terminate;
    TerminateStep(c, OtherError, strict);
  }

  lemma WriteFrameStep(c: Conn, strict: bool)
    requires Quiet(c, strict)
    ensures Step(c, DoWriteFrame(c), strict)
  {
    hide Silent, Pop, Post;
    PopLeaves(c.pump);
    Stays(c);
    if !c.pump.writeFlag {
      var p := Pop(c.pump);
      var d := c.(pump := p.(writeFlag := true, written := p.written + p.currentMsgs));
      assert Later(c, d) && Later(c, c.(pump := p));
      hide Later;
      PostStep(d, HandleWriteFrame);
      if p.currentMsgs != [] {
        Onward(c, d, Post(d, HandleWriteFrame));
      }
    }
  }

  lemma PopLeaves(p: Pump)
    ensures Pop(p).pushed == p.pushed && Pop(p).writeFlag == p.writeFlag
  {
  }

  lemma ReleaseStep(c: Conn, strict: bool)
    requires Quiet(c, strict)
    ensures Step(c, Wake(c.(pump := c.pump.(currentMsgs := [], writeFlag := false))), strict)
  {
    hide Silent, Wake;
    var d := c.(pump := c.pump.(currentMsgs := [], writeFlag := false));
    assert Later(c, d) && Quiet(d, strict);
    hide Later, Quiet;
    WakeStep(d);
    SameQuiet(d, Wake(d), strict);
    Onward(c, d, Wake(d));
  }

  lemma HandleWriteFrameStep(c: Conn, e: Error, strict: bool)
    requires Quiet(c, strict) && e != HttpEnded && c.pump.currentMsgs != []
    ensures Step(c, DoHandleWriteFrame(c, e), strict)
  {
    hide Silent, Terminate, Wake;
    var cleared := c.(pump := c.pump.(currentMsgs := []));
    TerminateStep(cleared, e, strict);
    TerminateStep(cleared, NoError, strict);
    assert Later(c, cleared);
    hide Later;
    Onward(c, cleared, Terminate(cleared, e));
    Onward(c, cleared, Terminate(cleared, NoError));
    ReleaseStep(c, strict);
  }

  lemma TallyStep(c: Conn, t: Tally, strict: bool)
    requires Quiet(c, strict) && c.tally.opens <= t.opens && c.tally.fails <= t.fails
    ensures Step(c, c.(tally := t), strict)
  {
    hide Silent;
  }

  lemma CountedCallsStep(c: Conn, t: Tally, calls: seq<UserCall>, strict: bool)
    requires Quiet(c, strict) && c.tally.opens <= t.opens && c.tally.fails <= t.fails
    ensures Step(c, RunCalls(c.(tally := t), calls), strict)
  {
    hide Quiet, Later, RunCalls;
    TallyStep(c, t, strict);
    RunCallsStep(c.(tally := t), calls, strict);
    Onward(c, c.(tally := t), RunCalls(c.(tally := t), calls));
  }

  lemma EndHandlerStep(c: Conn, status: TerminateStatus, calls: seq<UserCall>, strict: bool)
    requires Quiet(c, strict)
    ensures Step(c, DoHandleTerminate(c, status, calls), strict)
  {
    hide Quiet, Later, RunCalls;
    var d := CallEndHandler(c, status, calls);
    Stays(c);
    CountedCallsStep(c, c.tally.(fails := c.tally.fails + 1), calls, strict);
    CountedCallsStep(c, c.tally.(closes := c.tally.closes + 1), calls, strict);
    assert Step(c, d, strict);
    TallyStep(d, d.tally.(terminations := d.tally.terminations + 1), strict);
    Onward(c, d, DoHandleTerminate(c, status, calls));
  }

  // ----- Events -----

  lemma DeliverStep(c: Conn, ev: Event, strict: bool)
    requires Quiet(c, strict) && (strict ==> !ReadsSecondClose(c, ev))
    requires ev.OnWriteFrame? ==> c.pump.currentMsgs != []
    ensures Step(c, Deliver(c, ev), strict)
  {
    hide Quiet, Later, Call, DoStart, DoHandleTransportInit, DoHandleReadHandshake, DoHandleWriteHttpResponse,
      DoHandleSendHttpRequest, DoHandleReadHttpResponse, DoHandleReadFrame, DoTimeout, DoWriteFrame, DoHandleWriteFrame,
      DoHandleTerminate, AnswersAgainIn, RunCalls, Opened, CheckHandshake, Terminate;
    match ev
    case User(call) => CallStep(c, call, strict);
    case Start => StartStep(c, strict);
    case OnTransportInit(e, requestOk) => TransportInitStep(c, e, requestOk, strict);
    case OnSendHttpRequest(e) => SendHttpRequestStep(c, e, strict);
    case OnReadHandshake(e, request) => ReadHandshakeStep(c, e, request, strict);
    case OnWriteHttpResponse(e, calls, frames) => WriteHttpResponseStep(c, e, calls, frames, strict);
    case OnReadHttpResponse(e, response, calls, frames) => ReadHttpResponseStep(c, e, response, calls, frames, strict);
    case OnReadFrame(e, frames) => ReadFrameStep(c, e, frames, strict);
    case OnDispatchedWrite => WriteFrameStep(c, strict);
    case OnWriteFrame(e) => HandleWriteFrameStep(c, e, strict);
    case OnTerminate(status, calls) => EndHandlerStep(c, status, calls, strict);
    case OnOpenTimer(e) => TimeoutStep(c, e, strict);
    case OnCloseTimer(e) => TimeoutStep(c, e, strict);
  }

  /** What no event takes back. */
  predicate Grows(c: Conn, d: Conn) {
    && c.pump.pushed <= d.pump.pushed
    && c.history <= d.history
    && d.dropOnProtocolError == c.dropOnProtocolError
  }

  lemma ConsumeStep(c: Conn, ev: Event, strict: bool)
    requires Quiet(c, strict)
    ensures Quiet(Consume(c, ev), strict) && Grows(c, Consume(c, ev)) && Consume(c, ev).pump == c.pump
    ensures !ev.OnTerminate? ==> Later(c, Consume(c, ev))
  {
    SameQuiet(c, Consume(c, ev), strict);
    hide Quiet;
  }

  /** Every event keeps the invariant; only a second close frame spoils the strict one. */
  lemma ApplyStep(c: Conn, ev: Event, strict: bool)
    requires Quiet(c, strict) && Enabled(c, ev) && (strict ==> !PushesSecondClose(c, ev))
    ensures Quiet(Apply(c, ev), strict) && Grows(c, Apply(c, ev))
    ensures !ev.OnTerminate? ==> Later(c, Apply(c, ev))
  {
    hide Quiet, Deliver, Consume, ReadsSecondClose;
    ConsumeStep(c, ev, strict);
    DeliverStep(Consume(c, ev), ev, strict);
    LaterGrows(Consume(c, ev), Apply(c, ev));
    hide Later;
    if !ev.OnTerminate? {
      Onward(c, Consume(c, ev), Apply(c, ev));
    }
  }

  lemma LaterGrows(c: Conn, d: Conn)
    requires Later(c, d)
    ensures Grows(c, d)
  {
  }

  // ----- A second close frame -----

  lemma SecondClose(q: seq<Msg>, r: seq<Msg>)
    requires q <= r
    ensures !CloseOnlyLast(q) ==> !CloseOnlyLast(r)
    ensures HasClose(q) && |q| < |r| ==> !CloseOnlyLast(r)
  {
  }

  lemma AnsweredAgain(c: Conn, f: Frame)
    requires Quiet(c, false) && AnswersAgain(c, f)
    ensures !CloseOnlyLast(ProcessFrame(c, f).pump.pushed)
  {
    var q := ProcessFrame(c, f).pump.pushed;
    assert q == c.pump.pushed + [Msg(Close, f.payload, c.isServer)];
    SecondClose(c.pump.pushed, q);
  }

  lemma {:induction false} AnsweredAgainIn(c: Conn, frames: seq<Frame>)
    requires Quiet(c, false) && c.state != Connecting && AnswersAgainIn(c, frames)
    ensures !CloseOnlyLast(ProcessFrames(c, frames).pump.pushed)
    decreases |frames|
  {
    hide Quiet, ProcessFrame, HandleConsumeError, CloseOnlyLast, AnswersAgain;
    var d := ProcessFrame(c, frames[0]);
    ProcessFrameStep(c, frames[0], false);
    if AnswersAgain(c, frames[0]) {
      AnsweredAgain(c, frames[0]);
      ProcessFramesStep(d, frames[1..], false);
      SecondClose(d.pump.pushed, ProcessFrames(d, frames[1..]).pump.pushed);
    } else {
      AnsweredAgainIn(d, frames[1..]);
    }
  }

  lemma OpenAnswersAgain(c: Conn, calls: seq<UserCall>, frames: seq<Frame>)
    requires Silent(c.pump.pushed, Open, false) && FlagReleased(c.pump, Open)
    requires AnswersAgainIn(RunCalls(Opened(c), calls), frames)
    ensures !CloseOnlyLast(BecomeOpen(c, calls, frames).pump.pushed)
  {
    hide RunCalls, AnswersAgainIn, ProcessFrames, Silent, CloseOnlyLast, Terminate;
    RunCallsStep(Opened(c), calls, false);
    AnsweredAgainIn(RunCalls(Opened(c), calls), frames);
  }

  lemma DeliverAnswersAgain(c: Conn, ev: Event)
    requires Quiet(c, false) && ReadsSecondClose(c, ev)
    ensures !CloseOnlyLast(Deliver(c, ev).pump.pushed)
  {
    hide BecomeOpen, ProcessFrames, RunCalls, Opened, AnswersAgainIn, Terminate,
      CloseOnlyLast, OnlyClosesAfterClose, HasClose;
    match ev
    case OnReadFrame(e, frames) => AnsweredAgainIn(c, frames);
    case OnWriteHttpResponse(e, calls, frames) => OpenAnswersAgain(c, calls, frames);
    case OnReadHttpResponse(e, response, calls, frames) =>
      TerminateStep(c, OtherError, false);
      OpenAnswersAgain(if response.negotiated then c else Terminate(c, OtherError), calls, frames);
  }

  /** An event pushes a second close frame exactly when a malformed one it reads is answered while closing. */
  lemma SecondCloseFrame(c: Conn, ev: Event)
    requires Quiet(c, true) && Enabled(c, ev)
    ensures CloseOnlyLast(Apply(c, ev).pump.pushed) <==> !PushesSecondClose(c, ev)
  {
    hide CloseOnlyLast, OnlyClosesAfterClose, HasClose, Deliver, ReadsSecondClose, FlagReleased, Tracked;
    if PushesSecondClose(c, ev) {
      ConsumeStep(c, ev, true);
      assert Quiet(Consume(c, ev), false);
      DeliverAnswersAgain(Consume(c, ev), ev);
    } else {
      ApplyStep(c, ev, true);
    }
  }

  // ----- Theorems over all runs -----

  lemma {:induction false} RunsStep(c: Conn, evs: seq<Event>, strict: bool)
    requires Quiet(c, strict) && IsRun(c, evs) && (strict ==> !PushesSecondCloseIn(c, evs))
    ensures Quiet(After(c, evs), strict) && Grows(c, After(c, evs))
    decreases |evs|
  {
    hide Quiet, Apply, PushesSecondClose;
    if evs != [] {
      ApplyStep(c, evs[0], strict);
      RunsStep(Apply(c, evs[0]), evs[1..], strict);
    }
  }

  /** Once a close frame has been pushed, no data, ping or pong frame is ever pushed. */
  lemma CloseSilence(isServer: bool, drop: bool, evs: seq<Event>)
    requires IsRun(Fresh(isServer, drop), evs)
    ensures var c := After(Fresh(isServer, drop), evs); var q := c.pump.pushed;
      && (forall i, j | 0 <= i < j < |q| && q[i].kind == Close :: q[j].kind == Close)
      && (HasClose(q) ==> c.state == Closing || c.state == Closed)
      && (c.state == Closing ==> HasClose(q))
  {
    hide IsRun, After, PushesSecondCloseIn;
    RunsStep(Fresh(isServer, drop), evs, false);
  }

  lemma {:induction false} SecondCloseInRun(c: Conn, evs: seq<Event>)
    requires Quiet(c, true) && IsRun(c, evs) && PushesSecondCloseIn(c, evs)
    ensures !CloseOnlyLast(After(c, evs).pump.pushed)
    decreases |evs|
  {
    hide CloseOnlyLast, OnlyClosesAfterClose, HasClose, Apply, PushesSecondClose;
    var d := Apply(c, evs[0]);
    SecondCloseFrame(c, evs[0]);
    if PushesSecondClose(c, evs[0]) {
      ApplyStep(c, evs[0], false);
      RunsStep(d, evs[1..], false);
      SecondClose(d.pump.pushed, After(d, evs[1..]).pump.pushed);
    } else {
      ApplyStep(c, evs[0], true);
      SecondCloseInRun(d, evs[1..]);
    }
  }

  /**
   * A run pushes at most one close frame, as its last message, if and only if
   * no event of it answers a malformed close frame while closing.
   */
  lemma OneCloseFrameExactly(isServer: bool, drop: bool, evs: seq<Event>)
    requires IsRun(Fresh(isServer, drop), evs)
    ensures CloseOnlyLast(After(Fresh(isServer, drop), evs).pump.pushed)
      <==> !PushesSecondCloseIn(Fresh(isServer, drop), evs)
  {
    hide IsRun, After, PushesSecondCloseIn;
    if PushesSecondCloseIn(Fresh(isServer, drop), evs) {
      SecondCloseInRun(Fresh(isServer, drop), evs);
    } else {
      RunsStep(Fresh(isServer, drop), evs, true);
    }
  }

  // ----- Peers and configurations that rule it out -----

  /** Every close frame received carries a legal code and a reason in UTF-8. */
  predicate WellFormedFrames(frames: seq<Frame>) {
    forall f | f in frames :: f.CloseFrame? ==> f.wellFormed
  }

  predicate WellFormed(ev: Event) {
    match ev
    case OnWriteHttpResponse(_, _, frames) => WellFormedFrames(frames)
    case OnReadHttpResponse(_, _, _, frames) => WellFormedFrames(frames)
    case OnReadFrame(_, frames) => WellFormedFrames(frames)
    case _ => true
  }

  predicate AllWellFormed(evs: seq<Event>) {
    forall ev | ev in evs :: WellFormed(ev)
  }

  lemma {:induction false} WellFormedAnswersOnce(c: Conn, frames: seq<Frame>)
    requires WellFormedFrames(frames)
    ensures !AnswersAgainIn(c, frames)
    decreases |frames|
  {
    hide ProcessFrame;
    if frames != [] && !frames[0].ConsumeError? {
      WellFormedAnswersOnce(ProcessFrame(c, frames[0]), frames[1..]);
    }
  }

  lemma {:induction false} DroppingAnswersOnce(c: Conn, frames: seq<Frame>)
    requires Quiet(c, false) && c.state != Connecting && c.dropOnProtocolError
    ensures !AnswersAgainIn(c, frames)
    decreases |frames|
  {
    hide ProcessFrame, Silent;
    if frames != [] && !frames[0].ConsumeError? {
      ProcessFrameStep(c, frames[0], false);
      DroppingAnswersOnce(ProcessFrame(c, frames[0]), frames[1..]);
    }
  }

  lemma OpenedQuiet(c: Conn, calls: seq<UserCall>)
    requires Silent(c.pump.pushed, Open, false) && FlagReleased(c.pump, Open)
    ensures Step(Opened(c), RunCalls(Opened(c), calls), false)
  {
    hide Silent, RunCalls;
    RunCallsStep(Opened(c), calls, false);
  }

  lemma EventAnswersOnce(c: Conn, ev: Event)
    requires Quiet(c, false) && (c.dropOnProtocolError || WellFormed(ev))
    ensures !ReadsSecondClose(c, ev)
  {
    hide RunCalls, AnswersAgainIn, Terminate, OnlyClosesAfterClose, HasClose, CloseOnlyLast, WellFormedFrames;
    if ReadsSecondClose(c, ev) {
      var d := match ev
        case OnReadFrame(_, _) => c
        case OnWriteHttpResponse(_, calls, _) => RunCalls(Opened(c), calls)
        case OnReadHttpResponse(_, response, calls, _) =>
          RunCalls(Opened(if response.negotiated then c else Terminate(c, OtherError)), calls);
      var frames := match ev
        case OnReadFrame(_, frames) => frames
        case OnWriteHttpResponse(_, _, frames) => frames
        case OnReadHttpResponse(_, _, _, frames) => frames;
      if WellFormed(ev) {
        WellFormedAnswersOnce(d, frames);
      } else {
        TerminateStep(c, OtherError, false);
        match ev {
          case OnReadFrame(_, _) =>
          case OnWriteHttpResponse(_, calls, _) => OpenedQuiet(c, calls);
          case OnReadHttpResponse(_, response, calls, _) =>
            OpenedQuiet(if response.negotiated then c else Terminate(c, OtherError), calls);
        }
        DroppingAnswersOnce(d, frames);
      }
    }
  }

  lemma {:induction false} RunAnswersOnce(c: Conn, evs: seq<Event>)
    requires Quiet(c, false) && IsRun(c, evs) && (c.dropOnProtocolError || AllWellFormed(evs))
    ensures !PushesSecondCloseIn(c, evs)
    decreases |evs|
  {
    hide Quiet, Apply, ReadsSecondClose, WellFormed;
    if evs != [] {
      assert forall ev | ev in evs[1..] :: ev in evs;
      ConsumeStep(c, evs[0], false);
      EventAnswersOnce(Consume(c, evs[0]), evs[0]);
      ApplyStep(c, evs[0], false);
      RunAnswersOnce(Apply(c, evs[0]), evs[1..]);
    }
  }

  /**
   * So a run pushes at most one close frame when protocol errors drop the
   * connection, whatever the peer sends, and when the peer sends no malformed
   * close frame.
   */
  lemma OneCloseFrame(isServer: bool, drop: bool, evs: seq<Event>)
    requires IsRun(Fresh(isServer, drop), evs) && (drop || AllWellFormed(evs))
    ensures var q := After(Fresh(isServer, drop), evs).pump.pushed;
      forall i | 0 <= i < |q| && q[i].kind == Close :: i == |q| - 1
  {
    hide IsRun, After, PushesSecondCloseIn, AllWellFormed;
    RunAnswersOnce(Fresh(isServer, drop), evs);
    OneCloseFrameExactly(isServer, drop, evs);
  }
}
