/**
 * What runs keep about the connection's lifecycle: the state only moves
 * forward, no user handler is called too often or out of order, and the
 * transport is shut down once.
 *
 * Both hold of a run exactly when no extension negotiation fails in it.  That
 * the handlers are called at all is the subject of Liveness.
 */
module Lifecycle {
  import opened SessionModel
  import opened Silence

  function Rank(s: State): nat {
    match s
    case Connecting => 0
    case Open => 1
    case Closing => 2
    case Closed => 3
  }

  /** The states a connection went through, never backwards. */
  predicate Forward(h: seq<State>) {
    forall i, j | 0 <= i < j < |h| :: Rank(h[i]) <= Rank(h[j])
  }

  /**
   * The half of the documented contract of the open, fail and close handlers that
   * bounds their calls, with what they come to once the transport is shut down.
   */
  predicate AtMostOnce(c: Conn) {
    var t := c.tally;
    && t.opens + t.fails <= 1
    && t.closes <= t.opens
    && t.fails + t.closes <= 1
    && t.shutdowns <= 1
    && t.terminations <= t.shutdowns
    && (t.closes > 0 ==> c.state == Closed)
    && (t.terminations == 1 ==> t.closes == t.opens && (!c.isHttp ==> t.opens + t.fails == 1))
  }

  // ----- A failing negotiation -----

  predicate NegotiationFails(c: Conn, ev: Event) {
    && ev.OnReadHttpResponse? && ev.e == NoError && ev.response == ValidHandshake(false)
    && c.state == Connecting && c.istate == ReadHttpResponse
  }

  predicate NegotiationFailsIn(c: Conn, evs: seq<Event>)
    requires IsRun(c, evs)
    decreases |evs|
  {
    evs != [] && (NegotiationFails(c, evs[0]) || NegotiationFailsIn(Apply(c, evs[0]), evs[1..]))
  }

  // ----- The invariant -----

  predicate Life(c: Conn) {
    var t := c.tally;
    && EndsOwed(c, Failed) + EndsOwed(c, WasOpen) + t.terminations == t.shutdowns
    && (match c.state
        case Connecting => t.opens == 0 && t.shutdowns == 0 && c.istate != ProcessConnection
        case Open => t.opens == 1 && t.shutdowns == 0 && c.istate == ProcessConnection
        case Closing => t.opens == 1 && t.shutdowns == 0 && c.istate == ProcessConnection
        case Closed => t.opens <= 1 && t.shutdowns == 1)
    && (t.opens == 0 ==> EndsOwed(c, WasOpen) == 0 && t.closes == 0 && t.fails <= t.terminations)
    && (t.opens == 1 ==> EndsOwed(c, Failed) == 0 && t.fails == 0 && t.closes == t.terminations)
    && (c.ec == HttpEnded ==> c.isHttp)
    && (t.opens == 0 && !c.isHttp ==> t.fails == t.terminations)
  }

  predicate Inv(c: Conn) {
    Life(c) && Tracked(c) && Forward(c.history)
  }

  lemma InvAtMostOnce(c: Conn)
    requires Inv(c)
    ensures AtMostOnce(c)
  {
  }

  // ----- Primitives -----

  lemma MoveForward(c: Conn, s: State)
    requires Tracked(c) && Forward(c.history) && Rank(c.state) <= Rank(s)
    ensures Tracked(Move(c, s)) && Forward(Move(c, s).history)
  {
  }

  /** The queue and other callbacks do not matter here. */
  lemma SameLife(c: Conn, d: Conn)
    requires Inv(c)
    requires d.state == c.state && d.history == c.history && d.istate == c.istate
    requires d.isHttp == c.isHttp && d.ec == c.ec && d.tally == c.tally
    requires EndsOwed(d, Failed) == EndsOwed(c, Failed) && EndsOwed(d, WasOpen) == EndsOwed(c, WasOpen)
    ensures Inv(d)
  {
  }

  lemma PostLife(c: Conn, cb: Callback)
    requires Inv(c) && !cb.HandleTerminate?
    ensures Inv(Post(c, cb)) && Post(c, cb) == c.(pending := Post(c, cb).pending)
  {
    SameLife(c, Post(c, cb));
    hide Inv;
  }

  lemma PushLife(c: Conn, m: Msg)
    requires Inv(c)
    ensures Inv(PushAndWake(c, m)) && PushAndWake(c, m).state == c.state
  {
    hide Post;
    var d := c.(pump := Push(c.pump, m));
    SameLife(c, d);
    hide Inv;
    PostLife(d, WriteFrame);
  }

  lemma ShutdownLife(c: Conn)
    requires Inv(c) && c.state != Closed
    ensures Inv(Shutdown(c, if c.state == Connecting then Failed else WasOpen))
  {
    MoveForward(c, Closed);
    hide Forward;
  }

  lemma TerminateLife(c: Conn, e: Error)
    requires Inv(c) && (e == HttpEnded ==> c.isHttp)
    ensures Inv(Terminate(c, e)) && Terminate(c, e).state == Closed
  {
    var d := if e != NoError then c.(ec := e) else c;
    hide Forward;
    assert Inv(d);
    hide Inv;
    if c.state != Closed {
      ShutdownLife(d);
    }
  }

  lemma CloseFrameLife(c: Conn, payload: string, ack: bool, terminal: bool, granted: bool)
    requires Inv(c) && (c.state == Open || c.state == Closing)
    ensures Inv(SendCloseFrame(c, payload, ack, terminal, granted))
  {
    hide PushAndWake, Forward;
    MoveForward(c, Closing);
    PushLife(BeginClosing(c, ack), Msg(Close, payload, terminal));
  }

  lemma CallLife(c: Conn, call: UserCall)
    requires Inv(c)
    ensures Inv(Call(c, call))
  {
    hide Inv, PushAndWake, SendCloseFrame;
    if c.state == Open {
      match call
      case SendPrepared(payload, terminal) => PushLife(c, Msg(Data, payload, terminal));
      case Send(payload, _) => PushLife(c, Msg(Data, payload, false));
      case SendPing(payload, _) => PushLife(c, Msg(Ping, payload, false));
      case SendPong(payload, _) => PushLife(c, Msg(Pong, payload, false));
      case CloseCall(code, payload, granted) => CloseFrameLife(c, payload, false, TerminalCode(code), granted);
    }
  }

  lemma {:induction false} RunCallsLife(c: Conn, calls: seq<UserCall>)
    requires Inv(c)
    ensures Inv(RunCalls(c, calls))
    decreases |calls|
  {
    hide Inv, Call;
    if calls != [] {
      CallLife(c, calls[0]);
      RunCallsLife(Call(c, calls[0]), calls[1..]);
    }
  }

  // ----- Reading -----

  lemma ProcessFrameLife(c: Conn, f: Frame)
    requires Inv(c) && !f.ConsumeError? && c.state != Connecting
    ensures Inv(ProcessFrame(c, f))
  {
    hide Forward, Life, RunCalls, Call, SendCloseFrame, Terminate;
    match f
    case DataFrame(calls) => RunCallsLife(c, calls);
    case PingFrame(payload, calls, _, granted) =>
      RunCallsLife(c, calls);
      CallLife(RunCalls(c, calls), SendPong(payload, granted));
    case PongFrame(calls) => RunCallsLife(c, calls);
    case CloseFrame(_, payload, granted) =>
      if c.state != Closed {
        TerminateLife(c, OtherError);
        CloseFrameLife(c, payload, true, c.isServer, granted);
        SameLife(c, c.(wasClean := true));
        TerminateLife(c.(wasClean := true), NoError);
      }
    case UnknownControlFrame =>
  }

  lemma ConsumeErrorLife(c: Conn, f: Frame)
    requires Inv(c) && f.ConsumeError?
    ensures Inv(HandleConsumeError(c, f))
  {
    hide Inv, Terminate, Call;
    TerminateLife(c, OtherError);
    TerminateLife(c, InvalidState);
    CallLife(c, CloseCall(f.code, f.payload, true));
  }

  lemma {:induction false} ProcessFramesLife(c: Conn, frames: seq<Frame>)
    requires Inv(c) && Quiet(c, false) && c.state != Connecting
    ensures Inv(ProcessFrames(c, frames))
    decreases |frames|
  {
    hide Inv, Silent, ProcessFrame, HandleConsumeError;
    if frames == [] {
      PostLife(c, HandleReadFrame);
    } else if frames[0].ConsumeError? {
      ConsumeErrorLife(c, frames[0]);
    } else {
      ProcessFrameLife(c, frames[0]);
      ProcessFrameStep(c, frames[0], false);
      ProcessFramesLife(ProcessFrame(c, frames[0]), frames[1..]);
    }
  }

  lemma ReadFrameLife(c: Conn, e: Error, frames: seq<Frame>)
    requires Inv(c) && Quiet(c, false) && e != HttpEnded
    ensures Inv(DoHandleReadFrame(c, e, frames))
  {
    hide Inv, Silent, ProcessFrames, Terminate;
    var ecm := if e == NoError && c.istate != ProcessConnection then InvalidState else e;
    if ecm == NoError {
      ProcessFramesLife(c, frames);
    } else {
      TerminateLife(c, NoError);
      TerminateLife(c, ecm);
    }
  }

  lemma BecomeOpenLife(c: Conn, calls: seq<UserCall>, frames: seq<Frame>)
    requires Inv(c) && Quiet(c, false) && c.state == Connecting
    ensures Inv(BecomeOpen(c, calls, frames))
  {
    hide RunCalls, DoHandleReadFrame, OnlyClosesAfterClose, HasClose, CloseOnlyLast, Forward;
    MoveForward(c, Open);
    RunCallsLife(Opened(c), calls);
    RunCallsStep(Opened(c), calls, false);
    ReadFrameLife(RunCalls(Opened(c), calls), NoError, frames);
  }

  // ----- Handshake and shutdown -----

  lemma WriteHttpResponseLife(c: Conn, e: Error, calls: seq<UserCall>, frames: seq<Frame>)
    requires Inv(c) && Quiet(c, false) && e != HttpEnded
    ensures Inv(DoHandleWriteHttpResponse(c, e, calls, frames))
  {
    hide Forward, Quiet, BecomeOpen, Terminate;
    match CheckHandshake(c, e, ProcessHttpRequest)
    case Ignore =>
    case Fail(ecm) => TerminateLife(c, ecm);
    case Proceed =>
      BecomeOpenLife(c, calls, frames);
      TerminateLife(c, if c.isHttp then HttpEnded else c.ec);
  }

  lemma ReadHttpResponseLife(c: Conn, e: Error, response: Response, calls: seq<UserCall>, frames: seq<Frame>)
    requires Inv(c) && Quiet(c, false) && e != HttpEnded
    requires response == ValidHandshake(false) ==> CheckHandshake(c, e, ReadHttpResponse) != Proceed
    ensures Inv(DoHandleReadHttpResponse(c, e, response, calls, frames))
  {
    hide Inv, Quiet, BecomeOpen, Terminate;
    match CheckHandshake(c, e, ReadHttpResponse)
    case Ignore =>
    case Fail(ecm) => TerminateLife(c, ecm);
    case Proceed =>
      match response
      case ValidHandshake(_) => BecomeOpenLife(c, calls, frames);
      case NeedMoreResponse => PostLife(c, HandleReadHttpResponse);
      case _ => TerminateLife(c, OtherError);
  }

  lemma WriteResponseLife(c: Conn, e: Error)
    requires Inv(c)
    ensures Inv(WriteHttpResponse(c, e))
  {
    hide Forward, Post;
    if e != HttpEnded {
      var d := c.(ec := e);
      assert Inv(d);
      hide Inv;
      PostLife(d, HandleWriteHttpResponse);
    }
  }

  /** A request that has been read in full. */
  lemma StageLife(c: Conn, d: Conn)
    requires Inv(c) && c.state == Connecting && (c.isHttp ==> d.isHttp)
    requires d == c.(istate := ProcessHttpRequest, isHttp := d.isHttp, switching := d.switching)
    ensures Inv(d)
  {
    hide Forward;
  }

  lemma ErrorResponseLife(c: Conn, e: Error)
    requires Inv(c) && c.state == Connecting
    ensures Inv(WriteHttpResponseError(c, e))
  {
    hide Inv, Terminate, WriteHttpResponse;
    var d := c.(istate := ProcessHttpRequest, switching := false);
    StageLife(c, d);
    WriteResponseLife(d, e);
    TerminateLife(c, InvalidState);
  }

  lemma PlainHttpLife(c: Conn, terminated: bool, reason: Error, deferred: bool, switching: bool)
    requires Inv(c) && c.state == Connecting && c.istate == ProcessHttpRequest
    ensures Inv(AnswerPlainHttp(c, terminated, reason, deferred, switching))
  {
    hide Inv, Terminate, WriteHttpResponse;
    var h := c.(isHttp := true, switching := switching);
    StageLife(c, h);
    TerminateLife(h, reason);
    var d := if terminated then Terminate(h, reason) else h;
    WriteResponseLife(d, if d.state == Closed then HttpEnded else NoError);
  }

  lemma RequestLife(c: Conn, request: Request)
    requires Inv(c) && c.state == Connecting
    ensures Inv(ConsumeRequest(c, request))
  {
    hide Inv, Terminate, WriteHttpResponse, WriteHttpResponseError, AnswerPlainHttp, Post;
    match request
    case BoundsError => TerminateLife(c, OtherError);
    case ParseError => ErrorResponseLife(c, OtherError);
    case ProcessorError => ErrorResponseLife(c, OtherError);
    case NeedMoreRequest => PostLife(c, HandleReadHandshake);
    case WebSocketRequest(accepted, error) =>
      var d := c.(istate := ProcessHttpRequest, switching := accepted);
      StageLife(c, d);
      WriteResponseLife(d, if accepted then NoError else error);
    case PlainHttp(terminated, reason, deferred, switching) =>
      var d := c.(istate := ProcessHttpRequest);
      StageLife(c, d);
      PlainHttpLife(d, terminated, reason, deferred, switching);
  }

  lemma ReadHandshakeLife(c: Conn, e: Error, request: Request)
    requires Inv(c) && e != HttpEnded
    ensures Inv(DoHandleReadHandshake(c, e, request))
  {
    hide Inv, Terminate, ConsumeRequest;
    match CheckHandshake(c, e, ReadHttpRequest)
    case Ignore =>
    case Fail(ecm) => TerminateLife(c, ecm);
    case Proceed => RequestLife(c, request);
  }

  lemma StartLife(c: Conn)
    requires Inv(c)
    ensures Inv(DoStart(c))
  {
    hide Terminate, Forward;
    TerminateLife(c, InvalidState);
  }

  lemma TransportInitLife(c: Conn, e: Error, requestOk: bool)
    requires Inv(c) && e != HttpEnded
    ensures Inv(DoHandleTransportInit(c, e, requestOk))
  {
    hide Terminate, Forward;
    TerminateLife(c, if c.istate != TransportInit then InvalidState else e);
  }

  lemma SendHttpRequestLife(c: Conn, e: Error)
    requires Inv(c) && e != HttpEnded
    ensures Inv(DoHandleSendHttpRequest(c, e))
  {
    hide Terminate, Forward;
    TerminateLife(c, InvalidState);
    TerminateLife(c, e);
  }

  lemma TimeoutLife(c: Conn, e: Error)
    requires Inv(c)
    ensures Inv(DoTimeout(c, e))
  {
    hide Inv, Terminate;
    TerminateLife(c, OtherError);
  }

  lemma {:induction false} NotOpenIgnoresCalls(c: Conn, calls: seq<UserCall>)
    requires c.state != Open
    ensures RunCalls(c, calls) == c
    decreases |calls|
  {
    if calls != [] {
      NotOpenIgnoresCalls(c, calls[1..]);
    }
  }

  /** The completed shutdown calls the one handler that fits how the connection ended. */
  lemma HandleTerminateLife(c: Conn, status: TerminateStatus, calls: seq<UserCall>)
    requires Inv(c) && HandleTerminate(status) in c.pending
    ensures Inv(DoHandleTerminate(Consume(c, OnTerminate(status, calls)), status, calls))
  {
    hide Forward, DoHandleTerminate;
    assert c.state == Closed;
    EndHandlerCounts(Consume(c, OnTerminate(status, calls)), status, calls);
  }

  lemma EndHandlerCounts(c: Conn, status: TerminateStatus, calls: seq<UserCall>)
    requires c.state == Closed
    ensures DoHandleTerminate(c, status, calls) == c.(tally := c.tally.(
      fails := c.tally.fails + (if status == Failed && c.ec != HttpEnded then 1 else 0),
      closes := c.tally.closes + (if status == WasOpen then 1 else 0),
      terminations := c.tally.terminations + 1))
  {
    hide RunCalls;
    NotOpenIgnoresCalls(c.(tally := c.tally.(fails := c.tally.fails + 1)), calls);
    NotOpenIgnoresCalls(c.(tally := c.tally.(closes := c.tally.closes + 1)), calls);
  }

  lemma WriteFrameLife(c: Conn)
    requires Inv(c)
    ensures Inv(DoWriteFrame(c))
  {
    hide Pop, Post;
    var p := Pop(c.pump);
    var d := c.(pump := p.(writeFlag := true, written := p.written + p.currentMsgs));
    SameLife(c, d);
    SameLife(c, c.(pump := p));
    hide Inv;
    PostLife(d, HandleWriteFrame);
  }

  lemma HandleWriteFrameLife(c: Conn, e: Error)
    requires Inv(c) && e != HttpEnded && c.pump.currentMsgs != []
    ensures Inv(DoHandleWriteFrame(c, e))
  {
    hide Terminate, Post;
    var cleared, freed := c.(pump := c.pump.(currentMsgs := [])),
      c.(pump := c.pump.(currentMsgs := [], writeFlag := false));
    SameLife(c, cleared);
    SameLife(c, freed);
    hide Inv;
    TerminateLife(cleared, e);
    TerminateLife(cleared, NoError);
    PostLife(freed, WriteFrame);
  }

  // ----- Events -----

  lemma ConsumeLife(c: Conn, ev: Event)
    requires Inv(c) && !ev.OnTerminate?
    ensures Inv(Consume(c, ev))
  {
    SameLife(c, Consume(c, ev));
  }

  lemma DeliverLife(c: Conn, ev: Event)
    requires Inv(c) && Quiet(c, false) && !ev.OnTerminate? && !NegotiationFails(c, ev)
    requires ev.OnWriteFrame? ==> c.pump.currentMsgs != []
    ensures Inv(Deliver(c, ev))
  {
    hide Inv, Quiet, Call, DoStart, DoHandleTransportInit, DoHandleReadHandshake, DoHandleWriteHttpResponse,
      DoHandleSendHttpRequest, DoHandleReadHttpResponse, DoHandleReadFrame, DoTimeout, DoWriteFrame, DoHandleWriteFrame;
    match ev
    case User(call) => CallLife(c, call);
    case Start => StartLife(c);
    case OnTransportInit(e, requestOk) => TransportInitLife(c, e, requestOk);
    case OnSendHttpRequest(e) => SendHttpRequestLife(c, e);
    case OnReadHandshake(e, request) => ReadHandshakeLife(c, e, request);
    case OnWriteHttpResponse(e, calls, frames) => WriteHttpResponseLife(c, e, calls, frames);
    case OnReadHttpResponse(e, response, calls, frames) => ReadHttpResponseLife(c, e, response, calls, frames);
    case OnReadFrame(e, frames) => ReadFrameLife(c, e, frames);
    case OnDispatchedWrite => WriteFrameLife(c);
    case OnWriteFrame(e) => HandleWriteFrameLife(c, e);
    case OnOpenTimer(e) => TimeoutLife(c, e);
    case OnCloseTimer(e) => TimeoutLife(c, e);
  }

  lemma DeliverTerminate(c: Conn, ev: Event)
    requires ev.OnTerminate?
    ensures Deliver(c, ev) == DoHandleTerminate(c, ev.status, ev.calls)
  {
  }

  /** Every event other than a failing negotiation keeps the invariant. */
  lemma ApplyLife(c: Conn, ev: Event)
    requires Inv(c) && Quiet(c, false) && Enabled(c, ev) && !NegotiationFails(c, ev)
    ensures Inv(Apply(c, ev))
  {
    hide Inv, Quiet, Deliver;
    if ev.OnTerminate? {
      DeliverTerminate(Consume(c, ev), ev);
      HandleTerminateLife(c, ev.status, ev.calls);
    } else {
      ConsumeLife(c, ev);
      ConsumeStep(c, ev, false);
      DeliverLife(Consume(c, ev), ev);
    }
  }

  // ----- The one breach -----

  /** The open handler has been called, and the fail handler was or is going to be. */
  predicate Broken(c: Conn) {
    && c.state != Connecting
    && c.ec != HttpEnded
    && c.tally.opens >= 1
    && c.tally.fails + EndsOwed(c, Failed) >= 1
  }

  lemma {:induction false} StaysBackward(h: seq<State>, k: seq<State>)
    requires h <= k && !Forward(h)
    ensures !Forward(k)
  {
    var i, j :| 0 <= i < j < |h| && Rank(h[i]) > Rank(h[j]);
    assert k[i] == h[i] && k[j] == h[j];
  }

  lemma FailedNegotiation(c: Conn, ev: Event)
    requires NegotiationFails(c, ev)
    ensures Deliver(c, ev) == BecomeOpen(Terminate(c, OtherError), ev.calls, ev.frames)
  {
    hide BecomeOpen, Terminate;
  }

  lemma OpensAfterTerminating(c: Conn)
    requires c.state == Connecting
    ensures var o := Opened(Terminate(c, OtherError)); Broken(o) && o.history == c.history + [Closed] + [Open]
  {
    hide Opened;
    var t := Terminate(c, OtherError);
    assert t.ec == OtherError && t.history == c.history + [Closed] && EndsOwed(t, Failed) >= 1;
    hide Terminate;
    OpenedKeeps(t);
  }

  lemma OpenedKeeps(c: Conn)
    ensures var o := Opened(c);
      && o.state == Open && o.ec == c.ec && o.history == c.history + [Open]
      && o.tally.opens == c.tally.opens + 1 && EndsOwed(o, Failed) == EndsOwed(c, Failed)
  {
  }

  lemma ClosedThenOpen(h: seq<State>, k: seq<State>)
    requires h + [Closed] + [Open] <= k
    ensures !Forward(k)
  {
    var g := h + [Closed] + [Open];
    assert g[|h|] == Closed && g[|h| + 1] == Open;
    StaysBackward(g, k);
  }

  lemma LaterBroken(c: Conn, d: Conn)
    requires Broken(c) && Later(c, d)
    ensures Broken(d)
  {
  }

  /** A failing negotiation moves the state back and calls for both handlers. */
  lemma NegotiationBreaks(c: Conn, ev: Event)
    requires Quiet(c, false) && Enabled(c, ev) && NegotiationFails(c, ev)
    ensures Broken(Apply(c, ev)) && !Forward(Apply(c, ev).history)
  {
    hide Silent, Broken, Forward, Terminate, Opened, BecomeOpen, Deliver;
    var d := Consume(c, ev);
    ConsumeStep(c, ev, false);
    FailedNegotiation(d, ev);
    var t := Terminate(d, OtherError);
    TerminateStep(d, OtherError, false);
    assert Silent(t.pump.pushed, Open, false) by { NothingClosedYet(d); }
    OpensAfterTerminating(d);
    BecomeOpenStep(t, ev.calls, ev.frames, false);
    LaterBroken(Opened(t), Apply(c, ev));
    ClosedThenOpen(d.history, Apply(c, ev).history);
  }

  lemma NothingClosedYet(c: Conn)
    requires Quiet(c, false) && c.state == Connecting
    ensures Silent(c.pump.pushed, Open, false)
  {
    hide OnlyClosesAfterClose, HasClose, CloseOnlyLast;
  }

  /** The invariant survives an event if and only if the event is not a failing negotiation. */
  lemma EventKeepsInvariant(c: Conn, ev: Event)
    requires Inv(c) && Quiet(c, false) && Enabled(c, ev)
    ensures Inv(Apply(c, ev)) <==> !NegotiationFails(c, ev)
  {
    hide Life, Forward, Quiet, Apply, Broken;
    if NegotiationFails(c, ev) {
      NegotiationBreaks(c, ev);
    } else {
      ApplyLife(c, ev);
    }
  }

  lemma FailHandlerCounts(c: Conn, calls: seq<UserCall>)
    requires Quiet(c, false) && c.ec != HttpEnded
    ensures DoHandleTerminate(c, Failed, calls).tally.fails > c.tally.fails
  {
    hide Silent, RunCalls;
    var f := c.tally.(fails := c.tally.fails + 1);
    TallyStep(c, f, false);
    RunCallsStep(c.(tally := f), calls, false);
  }

  /** Nothing mends it. */
  lemma StaysBroken(c: Conn, ev: Event)
    requires Quiet(c, false) && Enabled(c, ev) && Broken(c)
    ensures Broken(Apply(c, ev))
  {
    hide Quiet, Deliver, RunCalls, DoHandleTerminate;
    if ev.OnTerminate? {
      var d := Consume(c, ev);
      ConsumeStep(c, ev, false);
      DeliverTerminate(d, ev);
      EndHandlerStep(d, ev.status, ev.calls, false);
      if ev.status == Failed {
        FailHandlerCounts(d, ev.calls);
      }
    } else {
      ApplyStep(c, ev, false);
      hide Later, Broken;
      LaterBroken(c, Apply(c, ev));
    }
  }

  // ----- Theorems over all runs -----

  lemma {:induction false} RunsKeepInv(c: Conn, evs: seq<Event>)
    requires Inv(c) && Quiet(c, false) && IsRun(c, evs) && !NegotiationFailsIn(c, evs)
    ensures Inv(After(c, evs)) && Quiet(After(c, evs), false)
    decreases |evs|
  {
    hide Apply, Inv, Quiet, NegotiationFails;
    if evs != [] {
      ApplyLife(c, evs[0]);
      ApplyStep(c, evs[0], false);
      RunsKeepInv(Apply(c, evs[0]), evs[1..]);
    }
  }

  lemma {:induction false} StaysBrokenInRun(c: Conn, evs: seq<Event>)
    requires Quiet(c, false) && IsRun(c, evs) && Broken(c)
    ensures Broken(After(c, evs))
    decreases |evs|
  {
    hide Apply, Broken, Quiet;
    if evs != [] {
      StaysBroken(c, evs[0]);
      ApplyStep(c, evs[0], false);
      StaysBrokenInRun(Apply(c, evs[0]), evs[1..]);
    }
  }

  lemma {:induction false} BreaksInRun(c: Conn, evs: seq<Event>)
    requires Quiet(c, false) && IsRun(c, evs) && NegotiationFailsIn(c, evs)
    ensures Broken(After(c, evs)) && !Forward(After(c, evs).history)
    decreases |evs|
  {
    hide Apply, Broken, Quiet, Forward, NegotiationFails;
    var d := Apply(c, evs[0]);
    ApplyStep(c, evs[0], false);
    if NegotiationFails(c, evs[0]) {
      NegotiationBreaks(c, evs[0]);
      StaysBrokenInRun(d, evs[1..]);
      RunsStep(d, evs[1..], false);
      StaysBackward(d.history, After(d, evs[1..]).history);
    } else {
      BreaksInRun(d, evs[1..]);
    }
  }

  lemma FreshInv(isServer: bool, drop: bool)
    ensures Inv(Fresh(isServer, drop)) && Quiet(Fresh(isServer, drop), false)
  {
  }

  /**
   * Along a run the state is never set back, not even inside a handler, if and
   * only if no extension negotiation fails in it.
   */
  lemma StateOnlyMovesForward(isServer: bool, drop: bool, evs: seq<Event>)
    requires IsRun(Fresh(isServer, drop), evs)
    ensures var c := After(Fresh(isServer, drop), evs);
      && Tracked(c)
      && (Forward(c.history) <==> !NegotiationFailsIn(Fresh(isServer, drop), evs))
  {
    hide IsRun, After, NegotiationFailsIn, Forward, Life, Broken, Silent;
    FreshInv(isServer, drop);
    RunsStep(Fresh(isServer, drop), evs, false);
    if NegotiationFailsIn(Fresh(isServer, drop), evs) {
      BreaksInRun(Fresh(isServer, drop), evs);
    } else {
      RunsKeepInv(Fresh(isServer, drop), evs);
    }
  }

  /** No run without a failing negotiation calls a handler too often or out of order. */
  lemma HandlersAtMostOnce(isServer: bool, drop: bool, evs: seq<Event>)
    requires IsRun(Fresh(isServer, drop), evs) && !NegotiationFailsIn(Fresh(isServer, drop), evs)
    ensures AtMostOnce(After(Fresh(isServer, drop), evs))
  {
    hide IsRun, After, NegotiationFailsIn, Inv, Quiet;
    FreshInv(isServer, drop);
    RunsKeepInv(Fresh(isServer, drop), evs);
    InvAtMostOnce(After(Fresh(isServer, drop), evs));
  }

  lemma BrokenTwice(c: Conn)
    requires Quiet(c, false) && Broken(c) && AtMostOnce(c)
    ensures Enabled(c, OnTerminate(Failed, [])) && !AtMostOnce(Apply(c, OnTerminate(Failed, [])))
  {
    hide Quiet, DoHandleTerminate, Deliver;
    var ev := OnTerminate(Failed, []);
    assert HandleTerminate(Failed) in c.pending;
    ConsumeStep(c, ev, false);
    DeliverTerminate(Consume(c, ev), ev);
    FailHandlerCounts(Consume(c, ev), []);
    EndHandlerStep(Consume(c, ev), Failed, [], false);
  }

  /**
   * That bound is broken, by a run as it stands or as soon as a failed shutdown
   * that it still owes completes, if and only if an extension negotiation failed
   * in the run.
   */
  lemma OnlyNegotiationCallsBoth(isServer: bool, drop: bool, evs: seq<Event>)
    requires IsRun(Fresh(isServer, drop), evs)
    ensures var c := After(Fresh(isServer, drop), evs); var end := OnTerminate(Failed, []);
      !AtMostOnce(c) || (Enabled(c, end) && !AtMostOnce(Apply(c, end))) <==>
        NegotiationFailsIn(Fresh(isServer, drop), evs)
  {
    hide IsRun, After, NegotiationFailsIn, Inv, Quiet, AtMostOnce, Broken, Apply, Enabled;
    var f := Fresh(isServer, drop);
    var c, end := After(f, evs), OnTerminate(Failed, []);
    FreshInv(isServer, drop);
    hide Fresh;
    RunsStep(f, evs, false);
    if NegotiationFailsIn(f, evs) {
      BreaksInRun(f, evs);
      if AtMostOnce(c) {
        BrokenTwice(c);
      }
    } else {
      HandlersAtMostOnce(isServer, drop, evs);
      RunsKeepInv(f, evs);
      if Enabled(c, end) {
        ApplyLife(c, end);
        InvAtMostOnce(Apply(c, end));
      }
    }
  }
}
