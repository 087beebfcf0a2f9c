/**
 * The connection's lifecycle and write pump as a transition system.
 *
 * A connection is driven by user calls, transport completions and timers.
 * Every one of them is one atomic step (`Apply`); the callbacks that the
 * transport still owes the connection are the multiset `pending`, and any of
 * them may be delivered next.  User handlers may call back into the
 * connection: their calls are part of the event that runs the handler.
 */
module SessionModel {

  datatype State = Connecting | Open | Closing | Closed

  datatype IState =
    | UserInit
    | TransportInit
    | ReadHttpRequest
    | WriteHttpRequest
    | ReadHttpResponse
    | ProcessHttpRequest
    | ProcessConnection

  datatype Kind = Data | Ping | Pong | Close

  datatype Msg = Msg(kind: Kind, payload: string, terminal: bool)

  datatype Error = NoError | Eof | ActionAfterShutdown | OtherError | InvalidState | HttpEnded

  /** What the transport can report; the other two codes are the library's own. */
  type TransportError = e: Error | e != InvalidState && e != HttpEnded witness NoError

  datatype TerminateStatus = Failed | WasOpen

  datatype Callback =
    | HandleTransportInit
    | HandleReadHandshake
    | HandleWriteHttpResponse
    | HandleSendHttpRequest
    | HandleReadHttpResponse
    | HandleReadFrame
    | WriteFrame
    | HandleWriteFrame
    | HandleTerminate(status: TerminateStatus)
    | OpenTimer
    | CloseTimer

  /** The outgoing side: the queue and the batch under way, and what has gone through them. */
  datatype Pump = Pump(
    sendQueue: seq<Msg>,
    currentMsgs: seq<Msg>,
    writeFlag: bool,
    bufferSize: int,
    pushed: seq<Msg>,     // every message ever put on the send queue
    written: seq<Msg>)    // every message ever handed to async_write

  /** How often each user handler and the transport's shutdown were called. */
  datatype Tally = Tally(opens: nat, fails: nat, closes: nat, shutdowns: nat, terminations: nat)

  datatype Conn = Conn(
    isServer: bool,
    dropOnProtocolError: bool,
    state: State,
    history: seq<State>,  // every value the state was ever given, in order
    istate: IState,
    isHttp: bool,
    switching: bool,      // response status is 101
    ec: Error,
    wasClean: bool,
    tally: Tally,
    pump: Pump,
    pending: multiset<Callback>)

  function Fresh(isServer: bool, drop: bool): Conn {
    Conn(isServer, drop, Connecting, [Connecting], UserInit, false, false, NoError, false,
         Tally(0, 0, 0, 0, 0), Pump([], [], false, 0, [], []), multiset{})
  }

  /** Assigning to the state. */
  function Move(c: Conn, s: State): Conn {
    c.(state := s, history := c.history + [s])
  }

  // ----- Events -----

  /** `granted` is whether the message manager and the processor deliver a prepared message. */
  datatype UserCall =
    | SendPrepared(payload: string, terminal: bool)
    | Send(payload: string, granted: bool)
    | SendPing(payload: string, granted: bool)
    | SendPong(payload: string, granted: bool)
    | CloseCall(code: nat, payload: string, granted: bool)

  /** What the processor makes of the bytes of one read, in order. */
  datatype Frame =
    | DataFrame(calls: seq<UserCall>)
    | PingFrame(payload: string, calls: seq<UserCall>, shouldReply: bool, granted: bool)
    | PongFrame(calls: seq<UserCall>)
    | CloseFrame(wellFormed: bool, payload: string, granted: bool)
    | UnknownControlFrame
    | ConsumeError(code: nat, payload: string, granted: bool)

  /** A plain HTTP request goes to a user handler, which may terminate the connection itself. */
  datatype Request =
    | BoundsError
    | ParseError
    | NeedMoreRequest
    | ProcessorError
    | WebSocketRequest(accepted: bool, error: TransportError)
    | PlainHttp(terminated: bool, reason: Error, deferred: bool, switching: bool)

  datatype Response =
    | MalformedResponse
    | NeedMoreResponse
    | InvalidHandshake
    | ValidHandshake(negotiated: bool)

  datatype Event =
    | User(call: UserCall)
    | Start
    | OnTransportInit(e: TransportError, requestOk: bool)
    | OnReadHandshake(e: TransportError, request: Request)
    | OnWriteHttpResponse(e: TransportError, calls: seq<UserCall>, frames: seq<Frame>)
    | OnSendHttpRequest(e: TransportError)
    | OnReadHttpResponse(e: TransportError, response: Response, calls: seq<UserCall>, frames: seq<Frame>)
    | OnReadFrame(e: TransportError, frames: seq<Frame>)
    | OnDispatchedWrite
    | OnWriteFrame(e: TransportError)
    | OnTerminate(status: TerminateStatus, calls: seq<UserCall>)
    | OnOpenTimer(e: TransportError)
    | OnCloseTimer(e: TransportError)

  // ----- The write pump -----

  function Post(c: Conn, cb: Callback): Conn {
    c.(pending := c.pending + multiset{cb})
  }

  function PostAll(c: Conn, cbs: multiset<Callback>): Conn {
    c.(pending := c.pending + cbs)
  }

  function Push(p: Pump, m: Msg): Pump {
    p.(sendQueue := p.sendQueue + [m], bufferSize := p.bufferSize + |m.payload|, pushed := p.pushed + [m])
  }

  function Wake(c: Conn): Conn {
    if !c.pump.writeFlag && c.pump.sendQueue != [] then Post(c, WriteFrame) else c
  }

  function PushAndWake(c: Conn, m: Msg): Conn {
    Wake(c.(pump := Push(c.pump, m)))
  }

  function TotalSize(q: seq<Msg>): nat {
    if q == [] then 0 else |q[0].payload| + TotalSize(q[1..])
  }

  /** How many messages the next write takes: up to and including the first terminal one. */
  function BatchSize(q: seq<Msg>): (n: nat)
    ensures n <= |q|
  {
    if q == [] then 0 else if q[0].terminal then 1 else 1 + BatchSize(q[1..])
  }

  /** Move the next batch from the queue to the batch under way. */
  function Pop(p: Pump): Pump {
    var n := BatchSize(p.sendQueue);
    p.(currentMsgs := p.currentMsgs + p.sendQueue[..n], sendQueue := p.sendQueue[n..],
       bufferSize := p.bufferSize - TotalSize(p.sendQueue[..n]))
  }

  function DoWriteFrame(c: Conn): Conn {
    if c.pump.writeFlag then c
    else
      var p := Pop(c.pump);
      if p.currentMsgs == [] then c.(pump := p)
      else Post(c.(pump := p.(writeFlag := true, written := p.written + p.currentMsgs)), HandleWriteFrame)
  }

  function DoHandleWriteFrame(c: Conn, e: Error): Conn
    requires c.pump.currentMsgs != []
  {
    var terminal := c.pump.currentMsgs[|c.pump.currentMsgs| - 1].terminal;
    var cleared := c.(pump := c.pump.(currentMsgs := []));
    if e != NoError then Terminate(cleared, e)
    else if terminal then Terminate(cleared, NoError)
    else Wake(cleared.(pump := cleared.pump.(writeFlag := false)))
  }

  // ----- Shutdown -----

  function Shutdown(c: Conn, status: TerminateStatus): Conn {
    Stop(Move(c, Closed), status)
  }

  /** Starting the transport's shutdown. */
  function Stop(c: Conn, status: TerminateStatus): Conn {
    Post(c.(tally := c.tally.(shutdowns := c.tally.shutdowns + 1)), HandleTerminate(status))
  }

  function Terminate(c: Conn, e: Error): Conn {
    var c := if e != NoError then c.(ec := e) else c;
    match c.state
    case Connecting => Shutdown(c, Failed)
    case Closed => c
    case _ => Shutdown(c, WasOpen)
  }

  /** The fail handler or the close handler, unless an HTTP handler took the connection over. */
  function CallEndHandler(c: Conn, status: TerminateStatus, calls: seq<UserCall>): Conn {
    match status
    case Failed =>
      if c.ec == HttpEnded then c
      else RunCalls(c.(tally := c.tally.(fails := c.tally.fails + 1)), calls)
    case WasOpen => RunCalls(c.(tally := c.tally.(closes := c.tally.closes + 1)), calls)
  }

  function DoHandleTerminate(c: Conn, status: TerminateStatus, calls: seq<UserCall>): Conn {
    var c := CallEndHandler(c, status, calls);
    c.(tally := c.tally.(terminations := c.tally.terminations + 1))
  }

  // ----- User calls -----

  /** close::status::terminal: codes that report an unrecoverable error. */
  predicate TerminalCode(code: nat) {
    code == 1002 || code == 1007 || code == 1008 || code == 1009 || code == 1011
  }

  function SendCloseFrame(c: Conn, payload: string, ack: bool, terminal: bool, granted: bool): Conn {
    if !granted then c
    else PushAndWake(BeginClosing(c, ack), Msg(Close, payload, terminal))
  }

  function BeginClosing(c: Conn, ack: bool): Conn {
    Post(Move(c, Closing).(wasClean := c.wasClean || ack), CloseTimer)
  }

  function Call(c: Conn, call: UserCall): Conn {
    if c.state != Open then c
    else match call
      case SendPrepared(payload, terminal) => PushAndWake(c, Msg(Data, payload, terminal))
      case Send(payload, granted) => if granted then PushAndWake(c, Msg(Data, payload, false)) else c
      case SendPing(payload, granted) => if granted then PushAndWake(c, Msg(Ping, payload, false)) else c
      case SendPong(payload, granted) => if granted then PushAndWake(c, Msg(Pong, payload, false)) else c
      case CloseCall(code, payload, granted) => SendCloseFrame(c, payload, false, TerminalCode(code), granted)
  }

  function RunCalls(c: Conn, calls: seq<UserCall>): Conn
    decreases |calls|
  {
    if calls == [] then c else RunCalls(Call(c, calls[0]), calls[1..])
  }

  // ----- Reading frames -----

  function ProcessClose(c: Conn, f: Frame): Conn
    requires f.CloseFrame?
  {
    if !f.wellFormed then
      if c.dropOnProtocolError then Terminate(c, OtherError)
      else SendCloseFrame(c, f.payload, true, c.isServer, f.granted)
    else if c.state == Open then SendCloseFrame(c, f.payload, true, c.isServer, f.granted)
    else if c.state == Closing && !c.wasClean then
      var c := c.(wasClean := true);
      if c.isServer then Terminate(c, NoError) else c
    else c
  }

  function ProcessFrame(c: Conn, f: Frame): Conn
    requires !f.ConsumeError?
  {
    match f
    case DataFrame(calls) => if c.state == Open then RunCalls(c, calls) else c
    case PingFrame(payload, calls, shouldReply, granted) =>
      if c.state != Open then c
      else
        var c := RunCalls(c, calls);
        if shouldReply then Call(c, SendPong(payload, granted)) else c
    case PongFrame(calls) => if c.state == Open then RunCalls(c, calls) else c
    case CloseFrame(_, _, _) => if c.state == Closed then c else ProcessClose(c, f)
    case UnknownControlFrame => c
  }

  function HandleConsumeError(c: Conn, f: Frame): Conn
    requires f.ConsumeError?
  {
    if c.dropOnProtocolError then Terminate(c, OtherError)
    else if c.state != Open then Terminate(c, InvalidState)
    else if !f.granted then Terminate(c, OtherError)
    else Call(c, CloseCall(f.code, f.payload, true))
  }

  function ProcessFrames(c: Conn, frames: seq<Frame>): Conn
    decreases |frames|
  {
    if frames == [] then Post(c, HandleReadFrame)
    else if frames[0].ConsumeError? then HandleConsumeError(c, frames[0])
    else ProcessFrames(ProcessFrame(c, frames[0]), frames[1..])
  }

  function DoHandleReadFrame(c: Conn, e: Error, frames: seq<Frame>): Conn {
    var ecm := if e == NoError && c.istate != ProcessConnection then InvalidState else e;
    if ecm == NoError then ProcessFrames(c, frames)
    else if ecm == Eof && c.state == Closed then c
    else if ecm == Eof && c.state == Closing && !c.isServer then Terminate(c, NoError)
    else if ecm == InvalidState && c.state == Closed then c
    else Terminate(c, ecm)
  }

  // ----- Opening handshake -----

  function DoStart(c: Conn): Conn {
    if c.istate != UserInit then Terminate(c, InvalidState)
    else Post(c.(istate := TransportInit), HandleTransportInit)
  }

  function DoHandleTransportInit(c: Conn, e: Error, requestOk: bool): Conn {
    var ecm := if c.istate != TransportInit then InvalidState else e;
    if ecm != NoError then Terminate(c, ecm)
    else if c.isServer then
      PostAll(c.(istate := ReadHttpRequest), multiset{OpenTimer, HandleReadHandshake})
    else
      var c := c.(istate := WriteHttpRequest);
      if requestOk then PostAll(c, multiset{OpenTimer, HandleSendHttpRequest}) else c
  }

  /** The state test that opens every handshake completion; None is "ignore, already closed". */
  datatype Checked = Ignore | Fail(e: Error) | Proceed

  function CheckHandshake(c: Conn, e: Error, expected: IState): Checked {
    if e == NoError then
      match c.state
      case Connecting => if c.istate != expected then Fail(InvalidState) else Proceed
      case Closed => Ignore
      case _ => Fail(InvalidState)
    else if e == Eof && c.state == Closed then Ignore
    else Fail(e)
  }

  function WriteHttpResponse(c: Conn, e: Error): Conn {
    if e == HttpEnded then c else Post(c.(ec := e), HandleWriteHttpResponse)
  }

  function WriteHttpResponseError(c: Conn, e: Error): Conn {
    if c.istate != ReadHttpRequest then Terminate(c, InvalidState)
    else WriteHttpResponse(c.(istate := ProcessHttpRequest, switching := false), e)
  }

  function DoHandleReadHandshake(c: Conn, e: Error, request: Request): Conn {
    match CheckHandshake(c, e, ReadHttpRequest)
    case Ignore => c
    case Fail(ecm) => Terminate(c, ecm)
    case Proceed => ConsumeRequest(c, request)
  }

  function ConsumeRequest(c: Conn, request: Request): Conn {
    match request
    case BoundsError => Terminate(c, OtherError)
    case ParseError => WriteHttpResponseError(c, OtherError)
    case ProcessorError => WriteHttpResponseError(c, OtherError)
    case NeedMoreRequest => Post(c, HandleReadHandshake)
    case WebSocketRequest(accepted, error) =>
      WriteHttpResponse(c.(istate := ProcessHttpRequest, switching := accepted), if accepted then NoError else error)
    case PlainHttp(terminated, reason, deferred, switching) =>
      AnswerPlainHttp(c.(istate := ProcessHttpRequest), terminated, reason, deferred, switching)
  }

  function AnswerPlainHttp(c: Conn, terminated: bool, reason: Error, deferred: bool, switching: bool): Conn {
    var h := c.(isHttp := true, switching := switching);
    var d := if terminated then Terminate(h, reason) else h;
    if deferred then d else WriteHttpResponse(d, if d.state == Closed then HttpEnded else NoError)
  }

  function BecomeOpen(c: Conn, calls: seq<UserCall>, frames: seq<Frame>): Conn {
    DoHandleReadFrame(RunCalls(Opened(c), calls), NoError, frames)
  }

  function Opened(c: Conn): Conn {
    Move(c.(istate := ProcessConnection, tally := c.tally.(opens := c.tally.opens + 1)), Open)
  }

  function DoHandleWriteHttpResponse(c: Conn, e: Error, calls: seq<UserCall>, frames: seq<Frame>): Conn {
    match CheckHandshake(c, e, ProcessHttpRequest)
    case Ignore => c
    case Fail(ecm) => Terminate(c, ecm)
    case Proceed =>
      if !c.switching then Terminate(c, if c.isHttp then HttpEnded else c.ec)
      else BecomeOpen(c, calls, frames)
  }

  function DoHandleSendHttpRequest(c: Conn, e: Error): Conn {
    match CheckHandshake(c, e, WriteHttpRequest)
    case Ignore => c
    case Fail(ecm) => Terminate(c, ecm)
    case Proceed => Post(c.(istate := ReadHttpResponse), HandleReadHttpResponse)
  }

  /** A failed extension negotiation terminates the connection and then opens it all the same. */
  function DoHandleReadHttpResponse(c: Conn, e: Error, response: Response, calls: seq<UserCall>, frames: seq<Frame>)
    : Conn
  {
    match CheckHandshake(c, e, ReadHttpResponse)
    case Ignore => c
    case Fail(ecm) => Terminate(c, ecm)
    case Proceed =>
      match response
      case MalformedResponse => Terminate(c, OtherError)
      case NeedMoreResponse => Post(c, HandleReadHttpResponse)
      case InvalidHandshake => Terminate(c, OtherError)
      case ValidHandshake(negotiated) =>
        BecomeOpen(if negotiated then c else Terminate(c, OtherError), calls, frames)
  }

  function DoTimeout(c: Conn, e: Error): Conn {
    if e == NoError then Terminate(c, OtherError) else c
  }

  // ----- Runs -----

  /** The pending callbacks an event uses up: none for a user call or start. */
  function Consumes(ev: Event): multiset<Callback> {
    match ev
    case User(_) => multiset{}
    case Start => multiset{}
    case OnTransportInit(_, _) => multiset{HandleTransportInit}
    case OnReadHandshake(_, _) => multiset{HandleReadHandshake}
    case OnWriteHttpResponse(_, _, _) => multiset{HandleWriteHttpResponse}
    case OnSendHttpRequest(_) => multiset{HandleSendHttpRequest}
    case OnReadHttpResponse(_, _, _, _) => multiset{HandleReadHttpResponse}
    case OnReadFrame(_, _) => multiset{HandleReadFrame}
    case OnDispatchedWrite => multiset{WriteFrame}
    case OnWriteFrame(_) => multiset{HandleWriteFrame}
    case OnTerminate(status, _) => multiset{HandleTerminate(status)}
    case OnOpenTimer(_) => multiset{OpenTimer}
    case OnCloseTimer(_) => multiset{CloseTimer}
  }

  /** An event can happen when its callback is owed; a write completion has a message to complete. */
  predicate Enabled(c: Conn, ev: Event) {
    Consumes(ev) <= c.pending && (ev.OnWriteFrame? ==> c.pump.currentMsgs != [])
  }

  function Consume(c: Conn, ev: Event): Conn {
    c.(pending := c.pending - Consumes(ev))
  }

  function Deliver(c: Conn, ev: Event): Conn
    requires ev.OnWriteFrame? ==> c.pump.currentMsgs != []
  {
    match ev
    case User(call) => Call(c, call)
    case Start => DoStart(c)
    case OnTransportInit(e, requestOk) => DoHandleTransportInit(c, e, requestOk)
    case OnReadHandshake(e, request) => DoHandleReadHandshake(c, e, request)
    case OnWriteHttpResponse(e, calls, frames) => DoHandleWriteHttpResponse(c, e, calls, frames)
    case OnSendHttpRequest(e) => DoHandleSendHttpRequest(c, e)
    case OnReadHttpResponse(e, response, calls, frames) => DoHandleReadHttpResponse(c, e, response, calls, frames)
    case OnReadFrame(e, frames) => DoHandleReadFrame(c, e, frames)
    case OnDispatchedWrite => DoWriteFrame(c)
    case OnWriteFrame(e) => DoHandleWriteFrame(c, e)
    case OnTerminate(status, calls) => DoHandleTerminate(c, status, calls)
    case OnOpenTimer(e) => DoTimeout(c, e)
    case OnCloseTimer(e) => DoTimeout(c, e)
  }

  function Apply(c: Conn, ev: Event): Conn
    requires Enabled(c, ev)
  {
    Deliver(Consume(c, ev), ev)
  }

  predicate IsRun(c: Conn, evs: seq<Event>)
    decreases |evs|
  {
    evs == [] || (Enabled(c, evs[0]) && IsRun(Apply(c, evs[0]), evs[1..]))
  }

  function After(c: Conn, evs: seq<Event>): Conn
    requires IsRun(c, evs)
    decreases |evs|
  {
    if evs == [] then c else After(Apply(c, evs[0]), evs[1..])
  }
}
