/**
 * Whether a connection attempt comes to an end.  A started connection that is
 * not closed is owed the one callback that carries it on, unless it stalled:
 * three branches leave it without one, and then only a timer, a write or a
 * second start can still close it.
 *
 * With what Lifecycle says about runs this gives the documented contract of the
 * open, fail and close handlers its exact condition.
 */
module Liveness {
  import opened SessionModel
  import Lifecycle
  import Silence
  import WritePump
  import opened Wrappers

  // ----- What carries a connection on -----

  /** How often each callback of the opening handshake and of reading is owed. */
  datatype Steps = Steps(init: nat, request: nat, answered: nat, sent: nat, response: nat, frame: nat)

  const NONE := Steps(0, 0, 0, 0, 0, 0)

  function Owed(c: Conn): Steps {
    Steps(c.pending[HandleTransportInit], c.pending[HandleReadHandshake], c.pending[HandleWriteHttpResponse],
          c.pending[HandleSendHttpRequest], c.pending[HandleReadHttpResponse], c.pending[HandleReadFrame])
  }

  /** The one callback that takes the connection out of an internal state. */
  function Due(i: IState): Steps {
    match i
    case UserInit => NONE
    case TransportInit => NONE.(init := 1)
    case ReadHttpRequest => NONE.(request := 1)
    case ProcessHttpRequest => NONE.(answered := 1)
    case WriteHttpRequest => NONE.(sent := 1)
    case ReadHttpResponse => NONE.(response := 1)
    case ProcessConnection => NONE.(frame := 1)
  }

  /** The internal state fits the state, and only an HTTP request makes an HTTP connection. */
  predicate Staged(c: Conn) {
    && (c.istate == ProcessConnection <==> c.state != Connecting)
    && (c.isHttp ==> c.istate == ProcessHttpRequest || c.istate == ProcessConnection)
  }

  predicate Carried(c: Conn, started: bool) {
    c.state != Closed ==> Owed(c) == Due(c.istate) && Staged(c) && (started ==> c.istate != UserInit)
  }

  // ----- Stalling -----

  datatype Stall =
    | Unprepared  // a client whose processor cannot prepare the request
    | Deferred    // an HTTP request that is to be answered later
    | Unread      // a processor error answered with a close frame, after which nothing is read

  /** The processor reports an error while the connection is open, and a close frame answers it. */
  predicate ClosesUnread(c: Conn, frames: seq<Frame>)
    decreases |frames|
  {
    frames != [] &&
      if frames[0].ConsumeError? then c.state == Open && !c.dropOnProtocolError && frames[0].granted
      else ClosesUnread(ProcessFrame(c, frames[0]), frames[1..])
  }

  /** How a handler stalls, if it does. */
  function HandlerStall(c: Conn, ev: Event): Option<Stall> {
    match ev
    case OnTransportInit(e, requestOk) =>
      if e == NoError && !requestOk && !c.isServer && c.state == Connecting && c.istate == TransportInit
      then Some(Unprepared) else None
    case OnReadHandshake(e, request) =>
      if && CheckHandshake(c, e, ReadHttpRequest) == Proceed
         && request.PlainHttp? && request.deferred && !request.terminated
      then Some(Deferred) else None
    case OnReadFrame(e, frames) =>
      if e == NoError && c.istate == ProcessConnection && ClosesUnread(c, frames) then Some(Unread) else None
    case OnWriteHttpResponse(e, calls, frames) =>
      if && CheckHandshake(c, e, ProcessHttpRequest) == Proceed && c.switching
         && ClosesUnread(RunCalls(Opened(c), calls), frames)
      then Some(Unread) else None
    case OnReadHttpResponse(e, response, calls, frames) =>
      if && CheckHandshake(c, e, ReadHttpResponse) == Proceed && response.ValidHandshake?
         && ClosesUnread(RunCalls(Opened(if response.negotiated then c else Terminate(c, OtherError)), calls), frames)
      then Some(Unread) else None
    case _ => None
  }

  function StallOf(c: Conn, ev: Event): Option<Stall> {
    HandlerStall(Consume(c, ev), ev)
  }

  /** What still closes a stalled connection: a timer that fires, a write that fails or was terminal, a second start. */
  predicate Ends(c: Conn, ev: Event) {
    match ev
    case Start => true
    case OnOpenTimer(e) => e == NoError
    case OnCloseTimer(e) => e == NoError
    case OnWriteFrame(e) =>
      e != NoError || (c.pump.currentMsgs != [] && c.pump.currentMsgs[|c.pump.currentMsgs| - 1].terminal)
    case _ => false
  }

  predicate EndsIn(c: Conn, evs: seq<Event>)
    requires IsRun(c, evs)
    decreases |evs|
  {
    evs != [] && (Ends(c, evs[0]) || EndsIn(Apply(c, evs[0]), evs[1..]))
  }

  /** The run takes the branch, and nothing after it closes the connection. */
  predicate StallsIn(c: Conn, evs: seq<Event>, k: Stall)
    requires IsRun(c, evs)
    decreases |evs|
  {
    evs != [] &&
      ((StallOf(c, evs[0]) == Some(k) && !EndsIn(Apply(c, evs[0]), evs[1..])) ||
        StallsIn(Apply(c, evs[0]), evs[1..], k))
  }

  /** Stalled and not closed: nothing that carries the connection on is owed. */
  predicate Adrift(c: Conn, k: Stall) {
    && Owed(c) == NONE && Staged(c)
    && match k
       case Unprepared => c.state == Connecting && c.istate == WriteHttpRequest
       case Deferred => c.state == Connecting && c.istate == ProcessHttpRequest && c.isHttp
       case Unread => c.state == Closing
  }

  // ----- User calls and frames -----

  /** What user calls and frames leave alone. */
  predicate Holds(c: Conn, d: Conn) {
    && Owed(d) == Owed(c)
    && d.istate == c.istate && d.isHttp == c.isHttp
    && (d.state == c.state || d.state == Closed || (c.state == Open && d.state == Closing))
  }

  lemma Chain(c: Conn, d: Conn, e: Conn)
    requires Holds(c, d) && Holds(d, e)
    ensures Holds(c, e)
  {
  }

  /** Callbacks of the write pump, timers and the shutdown. */
  predicate Aside(cb: Callback) {
    cb == WriteFrame || cb == HandleWriteFrame || cb.HandleTerminate? || cb == OpenTimer || cb == CloseTimer
  }

  lemma PostHolds(c: Conn, cb: Callback)
    requires Aside(cb)
    ensures Holds(c, Post(c, cb)) && Post(c, cb) == c.(pending := Post(c, cb).pending)
  {
  }

  lemma PushHolds(c: Conn, m: Msg)
    ensures Holds(c, PushAndWake(c, m)) && PushAndWake(c, m).state == c.state
  {
    hide Post;
    var d := c.(pump := Push(c.pump, m));
    assert Holds(c, d);
    PostHolds(d, WriteFrame);
    hide Holds;
    if Wake(d) != d {
      Chain(c, d, Wake(d));
    }
  }

  lemma TerminateHolds(c: Conn, e: Error)
    ensures Holds(c, Terminate(c, e)) && Terminate(c, e).state == Closed
  {
    hide Post, Move;
    var d := if e != NoError then c.(ec := e) else c;
    var status := if c.state == Connecting then Failed else WasOpen;
    var closed := Move(d, Closed);
    assert closed == d.(state := Closed, history := closed.history) by { MoveHolds(d, Closed); }
    var ended := closed.(tally := closed.tally.(shutdowns := closed.tally.shutdowns + 1));
    PostHolds(ended, HandleTerminate(status));
  }

  lemma MoveHolds(c: Conn, s: State)
    ensures Move(c, s) == c.(state := s, history := Move(c, s).history)
  {
  }

  lemma CloseFrameHolds(c: Conn, payload: string, ack: bool, terminal: bool, granted: bool)
    requires c.state == Open || c.state == Closing
    ensures Holds(c, SendCloseFrame(c, payload, ack, terminal, granted))
    ensures granted ==> SendCloseFrame(c, payload, ack, terminal, granted).state == Closing
  {
    hide PushAndWake, Post;
    if granted {
      var moved := Move(c, Closing).(wasClean := c.wasClean || ack);
      PostHolds(moved, CloseTimer);
      PushHolds(BeginClosing(c, ack), Msg(Close, payload, terminal));
    }
  }

  lemma CallHolds(c: Conn, call: UserCall)
    ensures Holds(c, Call(c, call))
    ensures c.state != Open ==> Call(c, call) == c
  {
    hide PushAndWake, SendCloseFrame, TerminalCode, Owed;
    if c.state == Open {
      match call
      case SendPrepared(payload, terminal) => PushHolds(c, Msg(Data, payload, terminal));
      case Send(payload, _) => PushHolds(c, Msg(Data, payload, false));
      case SendPing(payload, _) => PushHolds(c, Msg(Ping, payload, false));
      case SendPong(payload, _) => PushHolds(c, Msg(Pong, payload, false));
      case CloseCall(code, payload, granted) => CloseFrameHolds(c, payload, false, TerminalCode(code), granted);
    }
  }

  lemma {:induction false} RunCallsHolds(c: Conn, calls: seq<UserCall>)
    ensures Holds(c, RunCalls(c, calls))
    ensures c.state != Open ==> RunCalls(c, calls) == c
    decreases |calls|
  {
    hide Call, Owed;
    if calls != [] {
      CallHolds(c, calls[0]);
      RunCallsHolds(Call(c, calls[0]), calls[1..]);
    }
  }

  lemma ProcessCloseHolds(c: Conn, f: Frame)
    requires f.CloseFrame? && (c.state == Open || c.state == Closing)
    ensures Holds(c, ProcessClose(c, f))
  {
    hide SendCloseFrame, Terminate, Owed;
    TerminateHolds(c, OtherError);
    CloseFrameHolds(c, f.payload, true, c.isServer, f.granted);
    var clean := c.(wasClean := true);
    assert Owed(clean) == Owed(c) by { OwedByPending(c, clean); }
    TerminateHolds(clean, NoError);
  }

  lemma OwedByPending(c: Conn, d: Conn)
    requires c.pending == d.pending
    ensures Owed(c) == Owed(d)
  {
  }

  lemma ProcessFrameHolds(c: Conn, f: Frame)
    requires !f.ConsumeError? && c.state != Connecting
    ensures Holds(c, ProcessFrame(c, f))
  {
    hide Owed, RunCalls, Call, ProcessClose;
    match f
    case DataFrame(calls) => RunCallsHolds(c, calls);
    case PingFrame(payload, calls, _, granted) =>
      RunCallsHolds(c, calls);
      CallHolds(RunCalls(c, calls), SendPong(payload, granted));
    case PongFrame(calls) => RunCallsHolds(c, calls);
    case CloseFrame(_, _, _) =>
      if c.state != Closed {
        ProcessCloseHolds(c, f);
      }
    case UnknownControlFrame =>
  }

  // ----- Reading -----

  /** A connection past its handshake whose one read has just completed. */
  predicate Reading(c: Conn) {
    c.state != Connecting && c.istate == ProcessConnection && (c.state != Closed ==> Owed(c) == NONE)
  }

  lemma ConsumeErrorStalls(c: Conn, f: Frame)
    requires Reading(c) && f.ConsumeError?
    ensures var d := HandleConsumeError(c, f);
      if c.state == Open && !c.dropOnProtocolError && f.granted then Adrift(d, Unread) else d.state == Closed
  {
    hide Terminate, SendCloseFrame, Owed;
    TerminateHolds(c, OtherError);
    TerminateHolds(c, InvalidState);
    if c.state == Open {
      CloseFrameHolds(c, f.payload, false, TerminalCode(f.code), true);
    }
  }

  lemma PostRead(c: Conn)
    requires Reading(c)
    ensures Carried(Post(c, HandleReadFrame), true)
  {
  }

  lemma ReadingOn(c: Conn, d: Conn)
    requires Reading(c) && Holds(c, d)
    ensures Reading(d)
  {
    hide Owed;
  }

  /** A handler leaves the connection carried on, or stalled. */
  predicate Goes(d: Conn, stall: Option<Stall>, started: bool) {
    match stall
    case Some(k) => Adrift(d, k)
    case None => Carried(d, started)
  }

  /** And what was closed stays closed. */
  predicate GoesOn(c: Conn, d: Conn, stall: Option<Stall>, started: bool) {
    Goes(d, stall, started) && (c.state == Closed ==> d.state == Closed && stall == None)
  }

  function Unreads(c: Conn, frames: seq<Frame>): Option<Stall> {
    if ClosesUnread(c, frames) then Some(Unread) else None
  }

  lemma {:induction false} ProcessFramesGo(c: Conn, frames: seq<Frame>)
    requires Reading(c)
    ensures GoesOn(c, ProcessFrames(c, frames), Unreads(c, frames), true)
    decreases |frames|
  {
    hide ProcessFrame, HandleConsumeError, Owed, Staged, Reading;
    if frames == [] {
      PostRead(c);
    } else if frames[0].ConsumeError? {
      ConsumeErrorStalls(c, frames[0]);
    } else {
      var d := ProcessFrame(c, frames[0]);
      assert c.state != Connecting by { Past(c); }
      ProcessFrameHolds(c, frames[0]);
      ReadingOn(c, d);
      ProcessFramesGo(d, frames[1..]);
    }
  }

  lemma Past(c: Conn)
    requires Reading(c)
    ensures c.state != Connecting && c.istate == ProcessConnection
  {
  }

  lemma ReadFrameGoes(c: Conn, e: Error, frames: seq<Frame>)
    requires Taken(c, ProcessConnection)
    ensures GoesOn(c, DoHandleReadFrame(c, e, frames),
                   if e == NoError && c.istate == ProcessConnection then Unreads(c, frames) else None, true)
  {
    hide Owed, Terminate, ProcessFrames, ClosesUnread, Adrift;
    TerminateHolds(c, NoError);
    TerminateHolds(c, InvalidState);
    TerminateHolds(c, e);
    if e == NoError && c.istate == ProcessConnection {
      assert Reading(c);
      ProcessFramesGo(c, frames);
    }
  }

  /** Opening, from whatever state. */
  lemma BecomeOpenGoes(c: Conn, calls: seq<UserCall>, frames: seq<Frame>)
    requires Owed(c) == NONE
    ensures Goes(BecomeOpen(c, calls, frames), Unreads(RunCalls(Opened(c), calls), frames), true)
  {
    hide RunCalls, DoHandleReadFrame, ClosesUnread, Owed, Adrift, Carried;
    var o := Opened(c);
    OwedByPending(c, o);
    assert Reading(o);
    RunCallsHolds(o, calls);
    ReadingOn(o, RunCalls(o, calls));
    ReadFrameGoes(RunCalls(o, calls), NoError, frames);
  }

  // ----- Handshake -----

  /** The one callback that was owed has been delivered. */
  predicate Taken(c: Conn, i: IState) {
    c.state != Closed ==> Owed(c) == NONE && c.istate == i && Staged(c)
  }

  lemma TransportInitGoes(c: Conn, ev: Event)
    requires ev.OnTransportInit? && Taken(c, TransportInit)
    ensures GoesOn(c, DoHandleTransportInit(c, ev.e, ev.requestOk), HandlerStall(c, ev), true)
  {
    hide Terminate, Owed, Staged, PostAll;
    if ev.e != NoError || c.istate != TransportInit {
      TerminateHolds(c, if c.istate != TransportInit then InvalidState else ev.e);
    } else {
      ReadsRequest(c);
      SendsRequest(c);
    }
  }

  lemma ReadsRequest(c: Conn)
    ensures var d := PostAll(c.(istate := ReadHttpRequest), multiset{OpenTimer, HandleReadHandshake});
      && d.state == c.state && d.istate == ReadHttpRequest
      && (c.state != Closed && Owed(c) == NONE && c.istate == TransportInit && Staged(c) ==> Carried(d, true))
  {
  }

  lemma SendsRequest(c: Conn)
    ensures var d := PostAll(c.(istate := WriteHttpRequest), multiset{OpenTimer, HandleSendHttpRequest});
      && d.state == c.state && d.istate == WriteHttpRequest
      && (c.state != Closed && Owed(c) == NONE && c.istate == TransportInit && Staged(c) ==> Carried(d, true))
    ensures var d := c.(istate := WriteHttpRequest);
      c.state != Closed && Owed(c) == NONE && c.istate == TransportInit && Staged(c) ==> Adrift(d, Unprepared)
  {
  }

  lemma WriteResponseGoes(c: Conn, e: Error)
    requires Owed(c) == NONE && c.state == Connecting && c.istate == ProcessHttpRequest && e != HttpEnded
    ensures Carried(WriteHttpResponse(c, e), true) && WriteHttpResponse(c, e).state == Connecting
  {
  }

  lemma PlainHttpGoes(c: Conn, terminated: bool, reason: Error, deferred: bool, switching: bool)
    requires Owed(c) == NONE && c.state == Connecting && c.istate == ProcessHttpRequest
    ensures Goes(AnswerPlainHttp(c, terminated, reason, deferred, switching),
                 if deferred && !terminated then Some(Deferred) else None, true)
  {
    hide Terminate, WriteHttpResponse, Owed;
    var h := c.(isHttp := true, switching := switching);
    OwedByPending(c, h);
    TerminateHolds(h, reason);
    if terminated {
      EndedWritesNothing(Terminate(h, reason));
    } else if !deferred {
      WriteResponseGoes(h, NoError);
    }
  }

  lemma EndedWritesNothing(c: Conn)
    ensures WriteHttpResponse(c, HttpEnded) == c
  {
  }

  lemma ErrorResponseGoes(c: Conn)
    requires Taken(c, ReadHttpRequest) && c.state == Connecting
    ensures Carried(WriteHttpResponseError(c, OtherError), true)
  {
    hide Owed, Terminate, WriteHttpResponse;
    var d := c.(istate := ProcessHttpRequest, switching := false);
    OwedByPending(c, d);
    WriteResponseGoes(d, OtherError);
  }

  lemma ReadsOnRequest(c: Conn)
    requires Taken(c, ReadHttpRequest) && c.state == Connecting
    ensures Carried(Post(c, HandleReadHandshake), true)
  {
  }

  lemma RequestGoes(c: Conn, request: Request)
    requires Taken(c, ReadHttpRequest) && c.state == Connecting
    ensures Goes(ConsumeRequest(c, request),
                 if request.PlainHttp? && request.deferred && !request.terminated then Some(Deferred) else None, true)
  {
    hide Owed, Terminate, WriteHttpResponse, WriteHttpResponseError, AnswerPlainHttp, Post, Adrift;
    match request
    case BoundsError => TerminateHolds(c, OtherError);
    case ParseError => ErrorResponseGoes(c);
    case ProcessorError => ErrorResponseGoes(c);
    case NeedMoreRequest => ReadsOnRequest(c);
    case WebSocketRequest(accepted, error) =>
      var d := c.(istate := ProcessHttpRequest, switching := accepted);
      OwedByPending(c, d);
      WriteResponseGoes(d, if accepted then NoError else error);
    case PlainHttp(terminated, reason, deferred, switching) =>
      var d := c.(istate := ProcessHttpRequest);
      OwedByPending(c, d);
      PlainHttpGoes(d, terminated, reason, deferred, switching);
  }

  /** The check that opens a handshake completion lets only a connecting connection through. */
  lemma ChecksEnd(c: Conn, e: Error, expected: IState)
    ensures CheckHandshake(c, e, expected) == Proceed ==> c.state == Connecting && e == NoError
    ensures CheckHandshake(c, e, expected) == Ignore ==> c.state == Closed
  {
  }

  lemma ReadHandshakeGoes(c: Conn, ev: Event)
    requires ev.OnReadHandshake? && Taken(c, ReadHttpRequest)
    ensures GoesOn(c, DoHandleReadHandshake(c, ev.e, ev.request), HandlerStall(c, ev), true)
  {
    hide Owed, Terminate, ConsumeRequest, CheckHandshake, Adrift, Staged;
    ChecksEnd(c, ev.e, ReadHttpRequest);
    match CheckHandshake(c, ev.e, ReadHttpRequest)
    case Ignore =>
    case Fail(ecm) => TerminateHolds(c, ecm);
    case Proceed => RequestGoes(c, ev.request);
  }

  lemma WriteHttpResponseGoes(c: Conn, ev: Event)
    requires ev.OnWriteHttpResponse? && Taken(c, ProcessHttpRequest)
    ensures GoesOn(c, DoHandleWriteHttpResponse(c, ev.e, ev.calls, ev.frames), HandlerStall(c, ev), true)
  {
    hide Owed, Terminate, BecomeOpen, CheckHandshake, Adrift, Staged, ClosesUnread, RunCalls, Opened;
    ChecksEnd(c, ev.e, ProcessHttpRequest);
    match CheckHandshake(c, ev.e, ProcessHttpRequest)
    case Ignore =>
    case Fail(ecm) => TerminateHolds(c, ecm);
    case Proceed =>
      BecomeOpenGoes(c, ev.calls, ev.frames);
      TerminateHolds(c, if c.isHttp then HttpEnded else c.ec);
  }

  lemma ReadsResponse(c: Conn)
    requires Owed(c) == NONE && c.state == Connecting && Staged(c)
    ensures c.istate == ReadHttpResponse ==> Carried(Post(c, HandleReadHttpResponse), true)
    ensures c.istate == WriteHttpRequest ==> Carried(Post(c.(istate := ReadHttpResponse), HandleReadHttpResponse), true)
  {
  }

  lemma SendHttpRequestGoes(c: Conn, e: Error)
    requires Taken(c, WriteHttpRequest)
    ensures GoesOn(c, DoHandleSendHttpRequest(c, e), None, true)
  {
    hide Owed, Terminate, CheckHandshake, Post, Staged;
    ChecksEnd(c, e, WriteHttpRequest);
    match CheckHandshake(c, e, WriteHttpRequest)
    case Ignore =>
    case Fail(ecm) => TerminateHolds(c, ecm);
    case Proceed => ReadsResponse(c);
  }

  lemma ReadHttpResponseGoes(c: Conn, ev: Event)
    requires ev.OnReadHttpResponse? && Taken(c, ReadHttpResponse)
    ensures GoesOn(c, DoHandleReadHttpResponse(c, ev.e, ev.response, ev.calls, ev.frames), HandlerStall(c, ev), true)
  {
    hide Owed, Terminate, BecomeOpen, CheckHandshake, Adrift, Staged, ClosesUnread, RunCalls, Opened, Post;
    ChecksEnd(c, ev.e, ReadHttpResponse);
    match CheckHandshake(c, ev.e, ReadHttpResponse)
    case Ignore =>
    case Fail(ecm) => TerminateHolds(c, ecm);
    case Proceed =>
      TerminateHolds(c, OtherError);
      match ev.response
      case NeedMoreResponse => ReadsResponse(c);
      case ValidHandshake(negotiated) =>
        BecomeOpenGoes(if negotiated then c else Terminate(c, OtherError), ev.calls, ev.frames);
      case _ =>
  }

  lemma StartGoes(c: Conn, started: bool)
    requires Carried(c, started)
    ensures GoesOn(c, DoStart(c), None, true)
    ensures c.istate != UserInit ==> DoStart(c).state == Closed
  {
    hide Terminate;
    TerminateHolds(c, InvalidState);
  }

  // ----- The write pump, timers and the shutdown -----

  /** A handler that has nothing to do with carrying the connection on; it may end it. */
  predicate Stays(c: Conn, ev: Event, d: Conn) {
    && Holds(c, d)
    && (Ends(c, ev) ==> d.state == Closed)
    && (!Ends(c, ev) && c.state != Open ==> d.state == c.state)
  }

  lemma TimeoutStays(c: Conn, ev: Event)
    requires ev.OnOpenTimer? || ev.OnCloseTimer?
    ensures Stays(c, ev, DoTimeout(c, ev.e))
  {
    hide Owed, Terminate;
    TerminateHolds(c, OtherError);
  }

  lemma WriteFrameStays(c: Conn)
    ensures Stays(c, OnDispatchedWrite, DoWriteFrame(c))
  {
    hide Owed, Pop, Post;
    var p := Pop(c.pump);
    var d := c.(pump := p.(writeFlag := true, written := p.written + p.currentMsgs));
    OwedByPending(c, c.(pump := p));
    OwedByPending(c, d);
    PostHolds(d, HandleWriteFrame);
  }

  lemma HandleWriteFrameStays(c: Conn, e: TransportError)
    requires c.pump.currentMsgs != []
    ensures Stays(c, OnWriteFrame(e), DoHandleWriteFrame(c, e))
  {
    hide Owed, Terminate, Post;
    var cleared := c.(pump := c.pump.(currentMsgs := []));
    var freed := cleared.(pump := cleared.pump.(writeFlag := false));
    OwedByPending(c, cleared);
    OwedByPending(c, freed);
    TerminateHolds(cleared, e);
    TerminateHolds(cleared, NoError);
    PostHolds(freed, WriteFrame);
  }

  lemma HandleTerminateStays(c: Conn, status: TerminateStatus, calls: seq<UserCall>)
    ensures Stays(c, OnTerminate(status, calls), DoHandleTerminate(c, status, calls))
  {
    hide Owed, RunCalls;
    var failed, ended := c.(tally := c.tally.(fails := c.tally.fails + 1)),
      c.(tally := c.tally.(closes := c.tally.closes + 1));
    OwedByPending(c, failed);
    OwedByPending(c, ended);
    RunCallsHolds(failed, calls);
    RunCallsHolds(ended, calls);
    OwedByPending(CallEndHandler(c, status, calls), DoHandleTerminate(c, status, calls));
  }

  // ----- Events -----

  /** The internal state in which an event's callback is the one that is due. */
  function StageOf(ev: Event): Option<IState> {
    match ev
    case OnTransportInit(_, _) => Some(TransportInit)
    case OnReadHandshake(_, _) => Some(ReadHttpRequest)
    case OnWriteHttpResponse(_, _, _) => Some(ProcessHttpRequest)
    case OnSendHttpRequest(_) => Some(WriteHttpRequest)
    case OnReadHttpResponse(_, _, _, _) => Some(ReadHttpResponse)
    case OnReadFrame(_, _) => Some(ProcessConnection)
    case _ => None
  }

  lemma ConsumeTakes(c: Conn, ev: Event, started: bool)
    requires Carried(c, started) && Enabled(c, ev) && StageOf(ev) != None
    ensures Taken(Consume(c, ev), StageOf(ev).value)
  {
    hide Staged;
    var d := Consume(c, ev);
    assert Staged(d) == Staged(c) && d.state == c.state && d.istate == c.istate by { StagedByFields(c, d); }
    if c.state != Closed {
      OneIsDue(c, ev);
    }
  }

  lemma StagedByFields(c: Conn, d: Conn)
    requires d == c.(pending := d.pending)
    ensures Staged(d) == Staged(c)
  {
  }

  lemma OneIsDue(c: Conn, ev: Event)
    requires Owed(c) == Due(c.istate) && Consumes(ev) <= c.pending && StageOf(ev) != None
    ensures c.istate == StageOf(ev).value && Owed(Consume(c, ev)) == NONE
  {
  }

  lemma ConsumeLeaves(c: Conn, ev: Event, started: bool)
    requires Carried(c, started) && StageOf(ev) == None
    ensures Carried(Consume(c, ev), started)
  {
    hide Due, Owed, Staged, Consumes;
    TakesNone(c.pending, ev);
    var d := Consume(c, ev);
    StagedByFields(c, d);
    OwedByCounts(c, d);
  }

  lemma TakesNone(p: multiset<Callback>, ev: Event)
    requires StageOf(ev) == None
    ensures forall cb | cb in Consumes(ev) :: Aside(cb)
  {
  }

  lemma OwedByCounts(c: Conn, d: Conn)
    requires d.pending <= c.pending && forall cb | cb in c.pending && !Aside(cb) :: d.pending[cb] == c.pending[cb]
    ensures Owed(d) == Owed(c)
  {
  }

  lemma StageGoes(c: Conn, ev: Event)
    requires StageOf(ev) != None && Taken(c, StageOf(ev).value)
    ensures GoesOn(c, Deliver(c, ev), HandlerStall(c, ev), true)
  {
    hide Taken, GoesOn, HandlerStall, DoHandleTransportInit, DoHandleReadHandshake, DoHandleWriteHttpResponse,
      DoHandleSendHttpRequest, DoHandleReadHttpResponse, DoHandleReadFrame, ClosesUnread;
    match ev
    case OnTransportInit(_, _) => TransportInitGoes(c, ev);
    case OnReadHandshake(_, _) => ReadHandshakeGoes(c, ev);
    case OnWriteHttpResponse(_, _, _) => WriteHttpResponseGoes(c, ev);
    case OnSendHttpRequest(e) =>
      SendHttpRequestGoes(c, e);
      NoStall(c, ev);
    case OnReadHttpResponse(_, _, _, _) => ReadHttpResponseGoes(c, ev);
    case OnReadFrame(e, frames) =>
      ReadFrameGoes(c, e, frames);
      ReadStalls(c, ev);
  }

  lemma NoStall(c: Conn, ev: Event)
    requires StageOf(ev) == None || ev.OnSendHttpRequest?
    ensures HandlerStall(c, ev) == None
  {
  }

  lemma ReadStalls(c: Conn, ev: Event)
    requires ev.OnReadFrame?
    ensures HandlerStall(c, ev) ==
      if ev.e == NoError && c.istate == ProcessConnection then Unreads(c, ev.frames) else None
  {
    hide ClosesUnread;
  }

  lemma AsideStays(c: Conn, ev: Event)
    requires StageOf(ev) == None && ev != Start && (ev.OnWriteFrame? ==> c.pump.currentMsgs != [])
    ensures Stays(c, ev, Deliver(c, ev))
  {
    hide Owed, Call, DoTimeout, DoWriteFrame, DoHandleWriteFrame, DoHandleTerminate;
    match ev
    case User(call) => CallHolds(c, call);
    case OnDispatchedWrite => WriteFrameStays(c);
    case OnWriteFrame(e) => HandleWriteFrameStays(c, e);
    case OnTerminate(status, calls) => HandleTerminateStays(c, status, calls);
    case OnOpenTimer(_) => TimeoutStays(c, ev);
    case OnCloseTimer(_) => TimeoutStays(c, ev);
  }

  lemma StaysCarried(c: Conn, d: Conn, started: bool)
    requires Carried(c, started) && Holds(c, d)
    ensures Carried(d, started)
  {
    hide Owed;
  }

  lemma StaysAdrift(c: Conn, d: Conn, k: Stall)
    requires Adrift(c, k) && Holds(c, d) && d.state == c.state
    ensures Adrift(d, k)
  {
    hide Owed;
  }

  lemma DeliverStart(c: Conn)
    ensures Deliver(c, Start) == DoStart(c)
  {
  }

  lemma ConsumeState(c: Conn, ev: Event)
    ensures Consume(c, ev).state == c.state && Consume(c, ev).istate == c.istate && Consume(c, ev).pump == c.pump
    ensures Ends(Consume(c, ev), ev) == Ends(c, ev)
  {
  }

  /** Every event carries a connection on or stalls it, as its branch says; a closed connection stays closed. */
  lemma EventGoes(c: Conn, ev: Event, started: bool)
    requires Carried(c, started) && Enabled(c, ev)
    ensures GoesOn(c, Apply(c, ev), StallOf(c, ev), started || ev == Start)
  {
    hide Owed, Staged, Consume, Deliver, HandlerStall, Taken, Holds, Adrift, Ends;
    var d := Consume(c, ev);
    ConsumeState(c, ev);
    if StageOf(ev) != None {
      ConsumeTakes(c, ev, started);
      StageGoes(d, ev);
    } else if ev == Start {
      ConsumeLeaves(c, ev, started);
      NoStall(d, ev);
      DeliverStart(d);
      StartGoes(d, started);
    } else {
      ConsumeLeaves(c, ev, started);
      NoStall(d, ev);
      AsideStays(d, ev);
      StaysCarried(d, Apply(c, ev), started);
      ClosedHolds(d, Apply(c, ev));
    }
  }

  lemma ClosedHolds(c: Conn, d: Conn)
    requires Holds(c, d)
    ensures c.state == Closed ==> d.state == Closed
  {
  }

  lemma AdriftIsIdle(c: Conn, ev: Event, k: Stall)
    requires Adrift(c, k) && Enabled(c, ev)
    ensures StageOf(ev) == None && Adrift(Consume(c, ev), k) && c.istate != UserInit
  {
  }

  /** A stalled connection is closed by the events that end it, and by no others. */
  lemma EventDrifts(c: Conn, ev: Event, k: Stall)
    requires Adrift(c, k) && Enabled(c, ev)
    ensures if Ends(c, ev) then Apply(c, ev).state == Closed else Adrift(Apply(c, ev), k)
    ensures StallOf(c, ev) == None
  {
    hide Owed, Staged, Consume, Deliver, HandlerStall, Holds, Adrift;
    var d := Consume(c, ev);
    AdriftIsIdle(c, ev, k);
    ConsumeState(c, ev);
    NoStall(d, ev);
    if ev == Start {
      DeliverStart(d);
      SecondStart(d);
    } else {
      AsideStays(d, ev);
      assert d.state != Open by { NotOpen(d, k); }
      if !Ends(c, ev) {
        StaysAdrift(d, Apply(c, ev), k);
      }
    }
  }

  lemma SecondStart(c: Conn)
    requires c.istate != UserInit
    ensures DoStart(c).state == Closed
  {
    hide Terminate;
    TerminateHolds(c, InvalidState);
  }

  lemma NotOpen(c: Conn, k: Stall)
    requires Adrift(c, k)
    ensures c.state != Open && c.state != Closed
  {
  }

  // ----- Runs -----

  predicate NeverStalls(c: Conn, evs: seq<Event>)
    requires IsRun(c, evs)
  {
    forall k: Stall :: !StallsIn(c, evs, k)
  }

  lemma NothingStalls(c: Conn)
    ensures NeverStalls(c, [])
  {
  }

  lemma NextStall(c: Conn, evs: seq<Event>, k: Stall)
    requires IsRun(c, evs) && evs != [] && StallOf(c, evs[0]) == None
    ensures StallsIn(c, evs, k) <==> StallsIn(Apply(c, evs[0]), evs[1..], k)
  {
    hide Apply, StallOf, EndsIn;
  }

  lemma NextStalls(c: Conn, evs: seq<Event>)
    requires IsRun(c, evs) && evs != [] && StallOf(c, evs[0]) == None
    ensures forall k :: StallsIn(c, evs, k) <==> StallsIn(Apply(c, evs[0]), evs[1..], k)
    ensures NeverStalls(c, evs) <==> NeverStalls(Apply(c, evs[0]), evs[1..])
  {
    hide Apply, StallOf, StallsIn;
    forall k ensures StallsIn(c, evs, k) <==> StallsIn(Apply(c, evs[0]), evs[1..], k) {
      NextStall(c, evs, k);
    }
  }

  lemma {:induction false} ClosedStays(c: Conn, evs: seq<Event>)
    requires c.state == Closed && IsRun(c, evs)
    ensures After(c, evs).state == Closed && NeverStalls(c, evs)
    decreases |evs|
  {
    hide Apply, StallOf, NeverStalls;
    if evs == [] {
      NothingStalls(c);
    } else {
      EventGoes(c, evs[0], false);
      NextStalls(c, evs);
      ClosedStays(Apply(c, evs[0]), evs[1..]);
    }
  }

  lemma {:induction false} RunDrifts(c: Conn, evs: seq<Event>, k: Stall)
    requires Adrift(c, k) && IsRun(c, evs)
    ensures if EndsIn(c, evs) then After(c, evs).state == Closed else Adrift(After(c, evs), k)
    ensures NeverStalls(c, evs)
    decreases |evs|
  {
    hide Apply, StallOf, Adrift, Ends, NeverStalls;
    if evs == [] {
      NothingStalls(c);
    } else {
      EventDrifts(c, evs[0], k);
      NextStalls(c, evs);
      if Ends(c, evs[0]) {
        ClosedStays(Apply(c, evs[0]), evs[1..]);
      } else {
        RunDrifts(Apply(c, evs[0]), evs[1..], k);
      }
    }
  }

  /** A run that never stalls carries the connection on; one that stalls leaves it stalled. */
  lemma {:induction false} RunGoes(c: Conn, evs: seq<Event>, started: bool)
    requires Carried(c, started) && IsRun(c, evs)
    ensures NeverStalls(c, evs) ==> Carried(After(c, evs), started || Start in evs)
    ensures forall k | StallsIn(c, evs, k) :: Adrift(After(c, evs), k)
    decreases |evs|
  {
    hide Apply, StallOf, Adrift, Carried, NeverStalls;
    if evs != [] {
      var d, rest := Apply(c, evs[0]), evs[1..];
      assert Start in evs <==> evs[0] == Start || Start in rest;
      EventGoes(c, evs[0], started);
      match StallOf(c, evs[0])
      case Some(k) => RunStalls(c, evs, k, started || Start in evs);
      case None =>
        NextStalls(c, evs);
        RunGoes(d, rest, started || evs[0] == Start);
    }
  }

  lemma RunStalls(c: Conn, evs: seq<Event>, k: Stall, started: bool)
    requires IsRun(c, evs) && evs != [] && StallOf(c, evs[0]) == Some(k) && Adrift(Apply(c, evs[0]), k)
    ensures NeverStalls(c, evs) ==> Carried(After(c, evs), started)
    ensures forall j | StallsIn(c, evs, j) :: Adrift(After(c, evs), j)
  {
    hide Apply, StallOf, Adrift, Owed;
    RunDrifts(Apply(c, evs[0]), evs[1..], k);
    assert !StallsIn(c, evs, k) ==> EndsIn(Apply(c, evs[0]), evs[1..]);
  }

  // ----- Theorems over all runs -----

  lemma FreshCarried(isServer: bool, drop: bool)
    ensures Carried(Fresh(isServer, drop), false)
  {
  }

  /** A stall leaves less owed than is due. */
  lemma AdriftIsNotCarried(c: Conn, k: Stall)
    requires Adrift(c, k)
    ensures Owed(c) != Due(c.istate) && c.istate != UserInit && c.state != Closed
  {
  }

  /**
   * A connection that was started and is not closed is owed exactly the one
   * callback that carries it on, unless its run stalled.
   */
  lemma OwedWhatCarriesOn(isServer: bool, drop: bool, evs: seq<Event>)
    requires IsRun(Fresh(isServer, drop), evs) && Start in evs
    ensures var c := After(Fresh(isServer, drop), evs);
      c.state == Closed || (c.istate != UserInit && Owed(c) == Due(c.istate)) <==>
        NeverStalls(Fresh(isServer, drop), evs)
  {
    hide IsRun, After, StallsIn, Adrift, Owed, Due, Staged;
    FreshCarried(isServer, drop);
    RunGoes(Fresh(isServer, drop), evs, false);
    forall k | StallsIn(Fresh(isServer, drop), evs, k)
      ensures var c := After(Fresh(isServer, drop), evs); Owed(c) != Due(c.istate) && c.state != Closed
    {
      AdriftIsNotCarried(After(Fresh(isServer, drop), evs), k);
    }
  }

  lemma NothingDue(c: Conn)
    requires c.pending == multiset{} && c.istate != UserInit
    ensures Owed(c) == NONE && Owed(c) != Due(c.istate)
  {
  }

  /**
   * When the transport has delivered all it owed, a started connection is closed
   * if and only if its run did not stall; and a connection that stalled has
   * written all it pushed, no terminal message among it.
   */
  lemma ClosesUnlessStalled(isServer: bool, drop: bool, evs: seq<Event>)
    requires IsRun(Fresh(isServer, drop), evs) && Start in evs
    requires After(Fresh(isServer, drop), evs).pending == multiset{}
    ensures var c := After(Fresh(isServer, drop), evs);
      && (c.state == Closed <==> NeverStalls(Fresh(isServer, drop), evs))
      && (c.state != Closed ==> c.pump.written == c.pump.pushed && !WritePump.AnyTerminal(c.pump.pushed))
  {
    hide IsRun, After, StallsIn, Owed, Due, Silence.Silent, NeverStalls;
    var f, c := Fresh(isServer, drop), After(Fresh(isServer, drop), evs);
    OwedWhatCarriesOn(isServer, drop, evs);
    if c.istate != UserInit {
      NothingDue(c);
    }
    WritePump.AfterKeeps(f, evs);
    Lifecycle.FreshInv(isServer, drop);
    Silence.RunsStep(f, evs, false);
    if c.state != Closed {
      AllWritten(c);
    }
  }

  lemma AllWritten(c: Conn)
    requires WritePump.Inv(c) && Silence.FlagReleased(c.pump, c.state) && c.pending == multiset{} && c.state != Closed
    ensures c.pump.written == c.pump.pushed && !WritePump.AnyTerminal(c.pump.pushed)
  {
  }

  /** What the documentation of the handlers asks of a connection that has nothing more coming. */
  predicate Answered(c: Conn) {
    var t := c.tally;
    && (t.opens + t.fails == 1 || (c.isHttp && t.opens + t.fails == 0))
    && t.closes == t.opens
  }

  /** Without a failing negotiation only the two stalls that are not an HTTP answer leave it unanswered. */
  lemma SettledIsAnswered(c: Conn)
    requires Lifecycle.Life(c) && c.pending == multiset{}
    ensures c.state == Closed ==> Answered(c) && c.tally.terminations == 1
    ensures Adrift(c, Deferred) ==> Answered(c)
    ensures Adrift(c, Unprepared) || Adrift(c, Unread) ==> !Answered(c)
  {
    hide Owed;
  }

  lemma BrokenIsNotAnswered(c: Conn)
    requires Lifecycle.Broken(c) && c.pending == multiset{}
    ensures !Answered(c)
  {
  }

  /**
   * The documented contract of the open, fail and close handlers: either open or
   * fail for every attempt but an HTTP one, and close once for every open.  A
   * started connection whose callbacks have all been delivered kept it if and
   * only if no extension negotiation failed in its run, no request of it went
   * unprepared, and it did not stop reading for good after an error.
   */
  lemma EveryAttemptIsAnswered(isServer: bool, drop: bool, evs: seq<Event>)
    requires IsRun(Fresh(isServer, drop), evs) && Start in evs
    requires After(Fresh(isServer, drop), evs).pending == multiset{}
    ensures var f := Fresh(isServer, drop);
      Answered(After(f, evs)) <==>
        !Lifecycle.NegotiationFailsIn(f, evs) && !StallsIn(f, evs, Unprepared) && !StallsIn(f, evs, Unread)
    ensures var f := Fresh(isServer, drop);
      !Lifecycle.NegotiationFailsIn(f, evs) && NeverStalls(f, evs) ==> After(f, evs).tally.terminations == 1
  {
    hide IsRun, After, StallsIn, Adrift, Answered, Lifecycle.NegotiationFailsIn, Lifecycle.Life, Lifecycle.Broken,
      Silence.Quiet;
    var f := Fresh(isServer, drop);
    var c := After(f, evs);
    Lifecycle.FreshInv(isServer, drop);
    if Lifecycle.NegotiationFailsIn(f, evs) {
      Lifecycle.BreaksInRun(f, evs);
      BrokenIsNotAnswered(c);
    } else {
      Lifecycle.RunsKeepInv(f, evs);
      SettledIsAnswered(c);
      FreshCarried(isServer, drop);
      RunGoes(f, evs, false);
      ClosesUnlessStalled(isServer, drop, evs);
      if c.state != Closed && !StallsIn(f, evs, Unprepared) && !StallsIn(f, evs, Unread) {
        var k :| StallsIn(f, evs, k);
        assert k == Deferred;
      }
    }
  }
}
