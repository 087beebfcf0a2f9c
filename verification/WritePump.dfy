/**
 * What every run keeps about the write pump, with no assumption on the run:
 * messages leave in the order they were pushed, none lost and none twice, one
 * transport write at a time, and a waiting queue is always going to be served.
 */
module WritePump {
  import opened SessionModel

  predicate AnyTerminal(q: seq<Msg>) {
    exists i | 0 <= i < |q| :: q[i].terminal
  }

  /** Only the last message of what was written may be terminal. */
  predicate TerminalOnlyLast(q: seq<Msg>) {
    forall i | 0 <= i < |q| - 1 :: !q[i].terminal
  }

  predicate IsSuffix(s: seq<Msg>, t: seq<Msg>) {
    |s| <= |t| && s == t[|t| - |s|..]
  }

  predicate PumpInv(p: Pump) {
    && p.pushed == p.written + p.sendQueue
    && p.bufferSize == TotalSize(p.sendQueue)
    && IsSuffix(p.currentMsgs, p.written)
    && (p.currentMsgs != [] ==> p.writeFlag)
    && TerminalOnlyLast(p.written)
    && (AnyTerminal(p.written) ==> p.writeFlag)
  }

  /** What the transport owes the pump: one completion per write, a dispatch for a waiting queue. */
  predicate WritesOwed(p: Pump, pending: multiset<Callback>) {
    && pending[HandleWriteFrame] == (if p.currentMsgs == [] then 0 else 1)
    && (p.sendQueue != [] && !p.writeFlag ==> WriteFrame in pending)
  }

  predicate Inv(c: Conn) {
    PumpInv(c.pump) && WritesOwed(c.pump, c.pending)
  }

  // ----- Facts about batches -----

  lemma {:induction false} TotalSizeAppend(p: seq<Msg>, q: seq<Msg>)
    ensures TotalSize(p + q) == TotalSize(p) + TotalSize(q)
  {
    if p == [] {
      assert p + q == q;
    } else {
      assert (p + q)[1..] == p[1..] + q;
      TotalSizeAppend(p[1..], q);
    }
  }

  /** A batch ends at the first terminal message, or takes the whole queue. */
  lemma {:induction false} BatchStopsAtTerminal(q: seq<Msg>)
    ensures q != [] ==> BatchSize(q) > 0
    ensures TerminalOnlyLast(q[..BatchSize(q)])
    ensures AnyTerminal(q) <==> AnyTerminal(q[..BatchSize(q)])
    ensures !AnyTerminal(q) ==> BatchSize(q) == |q|
  {
    if q == [] {
    } else if q[0].terminal {
      assert q[..1][0].terminal;
    } else {
      var t, n := q[1..], BatchSize(q);
      BatchStopsAtTerminal(t);
      var b, bt := q[..n], t[..n - 1];
      assert b == [q[0]] + bt;
      assert forall i | 0 <= i < |t| :: t[i] == q[i + 1];
      assert forall i | 0 <= i < n - 1 :: bt[i] == b[i + 1];
      assert AnyTerminal(q) ==> AnyTerminal(t);
      assert AnyTerminal(bt) ==> AnyTerminal(b);
      assert AnyTerminal(b) ==> AnyTerminal(q);
    }
  }

  // ----- The pump's own steps -----

  lemma PushKeeps(p: Pump, m: Msg)
    requires PumpInv(p)
    ensures PumpInv(Push(p, m))
  {
    TotalSizeAppend(p.sendQueue, [m]);
    assert TotalSize([m]) == |m.payload|;
    assert p.pushed + [m] == p.written + (p.sendQueue + [m]);
  }

  function Take(p: Pump): Pump {
    var q := Pop(p);
    if q.currentMsgs == [] then q else q.(writeFlag := true, written := q.written + q.currentMsgs)
  }

  /** A write takes a batch off the front of the queue and puts it on the wire, in order. */
  lemma TakeKeeps(p: Pump)
    requires PumpInv(p) && !p.writeFlag
    ensures PumpInv(Take(p))
    ensures Take(p).currentMsgs != [] <==> p.sendQueue != []
  {
    var n := BatchSize(p.sendQueue);
    var batch, rest := p.sendQueue[..n], p.sendQueue[n..];
    assert p.sendQueue == batch + rest;
    TotalSizeAppend(batch, rest);
    BatchStopsAtTerminal(p.sendQueue);
    assert p.currentMsgs + batch == batch;
    assert p.written + (batch + rest) == (p.written + batch) + rest;
    assert !AnyTerminal(p.written);
    var w := p.written + batch;
    assert IsSuffix(batch, w);
    assert TerminalOnlyLast(w);
  }

  /** Releasing the flag is safe when the batch that was written is not terminal. */
  lemma ReleaseKeeps(p: Pump)
    requires PumpInv(p) && p.currentMsgs != []
    ensures PumpInv(p.(currentMsgs := []))
    ensures !p.currentMsgs[|p.currentMsgs| - 1].terminal ==> PumpInv(p.(currentMsgs := [], writeFlag := false))
    ensures AnyTerminal(p.written) <==> p.currentMsgs[|p.currentMsgs| - 1].terminal
  {
    var w := p.written;
    assert p.currentMsgs[|p.currentMsgs| - 1] == w[|w| - 1];
  }

  // ----- The connection's steps -----

  lemma PushAndWakeKeeps(c: Conn, m: Msg)
    requires Inv(c)
    ensures Inv(PushAndWake(c, m))
    ensures PushAndWake(c, m).pump.written == c.pump.written
  {
    PushKeeps(c.pump, m);
  }

  /** Callbacks that have nothing to do with writing. */
  lemma PostKeeps(c: Conn, cb: Callback)
    requires Inv(c) && cb != HandleWriteFrame
    ensures Inv(Post(c, cb)) && Post(c, cb).pump == c.pump
  {
    hide PumpInv;
  }

  lemma TerminateKeeps(c: Conn, e: Error)
    requires Inv(c)
    ensures Inv(Terminate(c, e))
    ensures Terminate(c, e).pump == c.pump
  {
    hide PumpInv, Post;
    var d := Move(if e != NoError then c.(ec := e) else c, Closed);
    var ended := d.(tally := d.tally.(shutdowns := d.tally.shutdowns + 1));
    PostKeeps(ended, HandleTerminate(Failed));
    PostKeeps(ended, HandleTerminate(WasOpen));
  }

  lemma CallKeeps(c: Conn, call: UserCall)
    requires Inv(c)
    ensures Inv(Call(c, call))
    ensures Call(c, call).pump.written == c.pump.written
  {
    hide Inv, PushAndWake, SendCloseFrame;
    if c.state == Open {
      match call
      case SendPrepared(payload, terminal) => PushAndWakeKeeps(c, Msg(Data, payload, terminal));
      case Send(payload, _) => PushAndWakeKeeps(c, Msg(Data, payload, false));
      case SendPing(payload, _) => PushAndWakeKeeps(c, Msg(Ping, payload, false));
      case SendPong(payload, _) => PushAndWakeKeeps(c, Msg(Pong, payload, false));
      case CloseCall(code, payload, granted) => CloseKeeps(c, payload, false, TerminalCode(code), granted);
    }
  }

  lemma CloseKeeps(c: Conn, payload: string, ack: bool, terminal: bool, granted: bool)
    requires Inv(c)
    ensures Inv(SendCloseFrame(c, payload, ack, terminal, granted))
    ensures SendCloseFrame(c, payload, ack, terminal, granted).pump.written == c.pump.written
  {
    hide PumpInv, PushAndWake;
    PushAndWakeKeeps(BeginClosing(c, ack), Msg(Close, payload, terminal));
  }

  lemma {:induction false} RunCallsKeeps(c: Conn, calls: seq<UserCall>)
    requires Inv(c)
    ensures Inv(RunCalls(c, calls))
    ensures RunCalls(c, calls).pump.written == c.pump.written
    decreases |calls|
  {
    hide Inv, Call;
    if calls != [] {
      CallKeeps(c, calls[0]);
      RunCallsKeeps(Call(c, calls[0]), calls[1..]);
    }
  }

  lemma ProcessCloseKeeps(c: Conn, f: Frame)
    requires Inv(c) && f.CloseFrame?
    ensures Inv(ProcessClose(c, f))
    ensures ProcessClose(c, f).pump.written == c.pump.written
  {
    hide PumpInv, SendCloseFrame, Terminate;
    CloseKeeps(c, f.payload, true, c.isServer, f.granted);
    TerminateKeeps(c, OtherError);
    TerminateKeeps(c.(wasClean := true), NoError);
  }

  lemma ProcessFrameKeeps(c: Conn, f: Frame)
    requires Inv(c) && !f.ConsumeError?
    ensures Inv(ProcessFrame(c, f))
    ensures ProcessFrame(c, f).pump.written == c.pump.written
  {
    hide Inv, RunCalls, Call, ProcessClose;
    match f
    case DataFrame(calls) => RunCallsKeeps(c, calls);
    case PingFrame(payload, calls, _, granted) =>
      RunCallsKeeps(c, calls);
      CallKeeps(RunCalls(c, calls), SendPong(payload, granted));
    case PongFrame(calls) => RunCallsKeeps(c, calls);
    case CloseFrame(_, _, _) => ProcessCloseKeeps(c, f);
    case UnknownControlFrame =>
  }

  lemma ConsumeErrorKeeps(c: Conn, f: Frame)
    requires Inv(c) && f.ConsumeError?
    ensures Inv(HandleConsumeError(c, f))
    ensures HandleConsumeError(c, f).pump.written == c.pump.written
  {
    hide Inv, Terminate, Call;
    TerminateKeeps(c, OtherError);
    TerminateKeeps(c, InvalidState);
    CallKeeps(c, CloseCall(f.code, f.payload, true));
  }

  lemma {:induction false} ProcessFramesKeeps(c: Conn, frames: seq<Frame>)
    requires Inv(c)
    ensures Inv(ProcessFrames(c, frames))
    ensures ProcessFrames(c, frames).pump.written == c.pump.written
    decreases |frames|
  {
    hide PumpInv, ProcessFrame, HandleConsumeError;
    if frames == [] {
    } else if frames[0].ConsumeError? {
      ConsumeErrorKeeps(c, frames[0]);
    } else {
      ProcessFrameKeeps(c, frames[0]);
      ProcessFramesKeeps(ProcessFrame(c, frames[0]), frames[1..]);
    }
  }

  lemma ReadFrameKeeps(c: Conn, e: Error, frames: seq<Frame>)
    requires Inv(c)
    ensures Inv(DoHandleReadFrame(c, e, frames))
    ensures DoHandleReadFrame(c, e, frames).pump.written == c.pump.written
  {
    hide Inv, ProcessFrames, Terminate;
    ProcessFramesKeeps(c, frames);
    TerminateKeeps(c, NoError);
    TerminateKeeps(c, InvalidState);
    TerminateKeeps(c, e);
  }

  lemma BecomeOpenKeeps(c: Conn, calls: seq<UserCall>, frames: seq<Frame>)
    requires Inv(c)
    ensures Inv(BecomeOpen(c, calls, frames))
    ensures BecomeOpen(c, calls, frames).pump.written == c.pump.written
  {
    hide PumpInv, RunCalls, DoHandleReadFrame;
    RunCallsKeeps(Opened(c), calls);
    ReadFrameKeeps(RunCalls(Opened(c), calls), NoError, frames);
  }

  lemma WriteFrameKeeps(c: Conn, pending: multiset<Callback>)
    requires Inv(c.(pending := pending + multiset{WriteFrame})) && c.pending == pending
    ensures Inv(DoWriteFrame(c))
    ensures c.pump.writeFlag ==> DoWriteFrame(c) == c
  {
    if !c.pump.writeFlag {
      TakeKeeps(c.pump);
    }
  }

  lemma HandleWriteFrameKeeps(c: Conn, e: Error)
    requires PumpInv(c.pump) && c.pump.currentMsgs != [] && c.pending[HandleWriteFrame] == 0
    ensures Inv(DoHandleWriteFrame(c, e))
    ensures DoHandleWriteFrame(c, e).pump.written == c.pump.written
  {
    hide Terminate;
    ReleaseKeeps(c.pump);
    var cleared := c.(pump := c.pump.(currentMsgs := []));
    TerminateKeeps(cleared, e);
    TerminateKeeps(cleared, NoError);
  }

  lemma HandleTerminateKeeps(c: Conn, status: TerminateStatus, calls: seq<UserCall>)
    requires Inv(c)
    ensures Inv(DoHandleTerminate(c, status, calls))
    ensures DoHandleTerminate(c, status, calls).pump.written == c.pump.written
  {
    hide PumpInv, RunCalls;
    RunCallsKeeps(c.(tally := c.tally.(fails := c.tally.fails + 1)), calls);
    RunCallsKeeps(c.(tally := c.tally.(closes := c.tally.closes + 1)), calls);
  }

  lemma WriteHttpResponseKeeps(c: Conn, e: Error, calls: seq<UserCall>, frames: seq<Frame>)
    requires Inv(c)
    ensures Inv(DoHandleWriteHttpResponse(c, e, calls, frames))
    ensures DoHandleWriteHttpResponse(c, e, calls, frames).pump.written == c.pump.written
  {
    hide Inv, BecomeOpen, Terminate;
    match CheckHandshake(c, e, ProcessHttpRequest)
    case Ignore =>
    case Fail(ecm) => TerminateKeeps(c, ecm);
    case Proceed =>
      BecomeOpenKeeps(c, calls, frames);
      TerminateKeeps(c, if c.isHttp then HttpEnded else c.ec);
  }

  lemma ReadHttpResponseKeeps(c: Conn, e: Error, response: Response, calls: seq<UserCall>, frames: seq<Frame>)
    requires Inv(c)
    ensures Inv(DoHandleReadHttpResponse(c, e, response, calls, frames))
    ensures DoHandleReadHttpResponse(c, e, response, calls, frames).pump.written == c.pump.written
  {
    hide PumpInv, BecomeOpen, Terminate;
    match CheckHandshake(c, e, ReadHttpResponse)
    case Ignore =>
    case Fail(ecm) => TerminateKeeps(c, ecm);
    case Proceed =>
      TerminateKeeps(c, OtherError);
      match response
      case ValidHandshake(negotiated) =>
        BecomeOpenKeeps(if negotiated then c else Terminate(c, OtherError), calls, frames);
      case _ =>
  }

  lemma WriteResponseKeeps(c: Conn, e: Error)
    requires Inv(c)
    ensures Inv(WriteHttpResponse(c, e)) && WriteHttpResponse(c, e).pump == c.pump
  {
    hide PumpInv, Post;
    PostKeeps(c.(ec := e), HandleWriteHttpResponse);
  }

  lemma ErrorResponseKeeps(c: Conn, e: Error)
    requires Inv(c)
    ensures Inv(WriteHttpResponseError(c, e)) && WriteHttpResponseError(c, e).pump == c.pump
  {
    hide PumpInv, Terminate, WriteHttpResponse;
    TerminateKeeps(c, InvalidState);
    WriteResponseKeeps(c.(istate := ProcessHttpRequest, switching := false), e);
  }

  lemma PlainHttpKeeps(c: Conn, terminated: bool, reason: Error, deferred: bool, switching: bool)
    requires Inv(c)
    ensures Inv(AnswerPlainHttp(c, terminated, reason, deferred, switching))
    ensures AnswerPlainHttp(c, terminated, reason, deferred, switching).pump == c.pump
  {
    hide PumpInv, Terminate, WriteHttpResponse;
    var h := c.(isHttp := true, switching := switching);
    TerminateKeeps(h, reason);
    var d := if terminated then Terminate(h, reason) else h;
    WriteResponseKeeps(d, if d.state == Closed then HttpEnded else NoError);
  }

  lemma RequestKeeps(c: Conn, request: Request)
    requires Inv(c)
    ensures Inv(ConsumeRequest(c, request)) && ConsumeRequest(c, request).pump == c.pump
  {
    hide PumpInv, Terminate, WriteHttpResponse, WriteHttpResponseError, AnswerPlainHttp, Post;
    match request
    case BoundsError => TerminateKeeps(c, OtherError);
    case ParseError => ErrorResponseKeeps(c, OtherError);
    case ProcessorError => ErrorResponseKeeps(c, OtherError);
    case NeedMoreRequest => PostKeeps(c, HandleReadHandshake);
    case WebSocketRequest(accepted, error) =>
      WriteResponseKeeps(c.(istate := ProcessHttpRequest, switching := accepted), if accepted then NoError else error);
    case PlainHttp(terminated, reason, deferred, switching) =>
      PlainHttpKeeps(c.(istate := ProcessHttpRequest), terminated, reason, deferred, switching);
  }

  lemma ReadHandshakeKeeps(c: Conn, e: Error, request: Request)
    requires Inv(c)
    ensures Inv(DoHandleReadHandshake(c, e, request))
    ensures DoHandleReadHandshake(c, e, request).pump == c.pump
  {
    hide Inv, Terminate, ConsumeRequest;
    match CheckHandshake(c, e, ReadHttpRequest)
    case Ignore =>
    case Fail(ecm) => TerminateKeeps(c, ecm);
    case Proceed => RequestKeeps(c, request);
  }

  lemma StartKeeps(c: Conn)
    requires Inv(c)
    ensures Inv(DoStart(c)) && DoStart(c).pump == c.pump
  {
    hide PumpInv, Terminate;
    TerminateKeeps(c, InvalidState);
  }

  lemma TransportInitKeeps(c: Conn, e: Error, requestOk: bool)
    requires Inv(c)
    ensures Inv(DoHandleTransportInit(c, e, requestOk)) && DoHandleTransportInit(c, e, requestOk).pump == c.pump
  {
    hide PumpInv, Terminate;
    TerminateKeeps(c, if c.istate != TransportInit then InvalidState else e);
  }

  lemma SendHttpRequestKeeps(c: Conn, e: Error)
    requires Inv(c)
    ensures Inv(DoHandleSendHttpRequest(c, e)) && DoHandleSendHttpRequest(c, e).pump == c.pump
  {
    hide PumpInv, Terminate;
    TerminateKeeps(c, InvalidState);
    TerminateKeeps(c, e);
  }

  lemma TimeoutKeeps(c: Conn, e: Error)
    requires Inv(c)
    ensures Inv(DoTimeout(c, e)) && DoTimeout(c, e).pump == c.pump
  {
    hide Inv, Terminate;
    TerminateKeeps(c, OtherError);
  }

  lemma DeliverKeeps(c: Conn, ev: Event)
    requires Inv(c) && !ev.OnWriteFrame? && !ev.OnDispatchedWrite?
    ensures Inv(Deliver(c, ev))
    ensures Deliver(c, ev).pump.written == c.pump.written
  {
    hide Inv, Call, DoStart, DoHandleTransportInit, DoHandleReadHandshake, DoHandleWriteHttpResponse,
      DoHandleSendHttpRequest, DoHandleReadHttpResponse, DoHandleReadFrame, DoHandleTerminate, DoTimeout;
    match ev
    case User(call) => CallKeeps(c, call);
    case Start => StartKeeps(c);
    case OnTransportInit(e, requestOk) => TransportInitKeeps(c, e, requestOk);
    case OnSendHttpRequest(e) => SendHttpRequestKeeps(c, e);
    case OnReadHandshake(e, request) => ReadHandshakeKeeps(c, e, request);
    case OnWriteHttpResponse(e, calls, frames) => WriteHttpResponseKeeps(c, e, calls, frames);
    case OnReadHttpResponse(e, response, calls, frames) => ReadHttpResponseKeeps(c, e, response, calls, frames);
    case OnReadFrame(e, frames) => ReadFrameKeeps(c, e, frames);
    case OnTerminate(status, calls) => HandleTerminateKeeps(c, status, calls);
    case OnOpenTimer(e) => TimeoutKeeps(c, e);
    case OnCloseTimer(e) => TimeoutKeeps(c, e);
  }

  /** Every event keeps the pump's invariant; only a dispatch that finds the flag free writes. */
  lemma ApplyKeeps(c: Conn, ev: Event)
    requires Inv(c) && Enabled(c, ev)
    ensures Inv(Apply(c, ev))
    ensures !ev.OnDispatchedWrite? || c.pump.writeFlag ==> Apply(c, ev).pump.written == c.pump.written
  {
    hide Deliver, Inv, Consume;
    if ev.OnWriteFrame? {
      CompletionKeeps(c, ev);
    } else if ev.OnDispatchedWrite? {
      DispatchKeeps(c, ev);
    } else {
      ConsumeKeeps(c, ev);
      DeliverKeeps(Consume(c, ev), ev);
    }
  }

  lemma ConsumeKeeps(c: Conn, ev: Event)
    requires Inv(c) && !ev.OnWriteFrame? && !ev.OnDispatchedWrite?
    ensures Inv(Consume(c, ev)) && Consume(c, ev).pump == c.pump
  {
    hide PumpInv, Consumes;
    ConsumesNoWrite(ev);
  }

  lemma ConsumesNoWrite(ev: Event)
    requires !ev.OnWriteFrame? && !ev.OnDispatchedWrite?
    ensures Consumes(ev)[HandleWriteFrame] == 0 && Consumes(ev)[WriteFrame] == 0
  {
  }

  lemma CompletionKeeps(c: Conn, ev: Event)
    requires Inv(c) && Enabled(c, ev) && ev.OnWriteFrame?
    ensures Inv(Apply(c, ev)) && Apply(c, ev).pump.written == c.pump.written
  {
    hide Deliver, DoHandleWriteFrame, PumpInv;
    var d := Consume(c, ev);
    HandleWriteFrameKeeps(d, ev.e);
    DeliverWrites(d, ev);
  }

  lemma DispatchKeeps(c: Conn, ev: Event)
    requires Inv(c) && Enabled(c, ev) && ev.OnDispatchedWrite?
    ensures Inv(Apply(c, ev)) && (c.pump.writeFlag ==> Apply(c, ev).pump == c.pump)
  {
    hide Deliver, DoWriteFrame, PumpInv;
    var d := Consume(c, ev);
    assert d.pending + multiset{WriteFrame} == c.pending;
    WriteFrameKeeps(d, d.pending);
    DeliverWrites(d, ev);
  }

  lemma DeliverWrites(c: Conn, ev: Event)
    ensures ev.OnDispatchedWrite? ==> Deliver(c, ev) == DoWriteFrame(c)
    ensures ev.OnWriteFrame? && c.pump.currentMsgs != [] ==> Deliver(c, ev) == DoHandleWriteFrame(c, ev.e)
  {
  }

  lemma {:induction false} AfterKeeps(c: Conn, evs: seq<Event>)
    requires Inv(c) && IsRun(c, evs)
    ensures Inv(After(c, evs))
    decreases |evs|
  {
    hide Inv, Apply;
    if evs != [] {
      ApplyKeeps(c, evs[0]);
      AfterKeeps(Apply(c, evs[0]), evs[1..]);
    }
  }

  // ----- Theorems over all runs -----

  /** Conservation: pushed is written followed by queued, and the byte counter is exact. */
  lemma RunsAreFifo(isServer: bool, drop: bool, evs: seq<Event>)
    requires IsRun(Fresh(isServer, drop), evs)
    ensures var p := After(Fresh(isServer, drop), evs).pump;
      p.pushed == p.written + p.sendQueue && p.bufferSize == TotalSize(p.sendQueue)
  {
    hide IsRun, After, Apply;
    AfterKeeps(Fresh(isServer, drop), evs);
  }

  /** At most one transport write is outstanding, exactly while a batch is held. */
  lemma RunsWriteOneBatchAtATime(isServer: bool, drop: bool, evs: seq<Event>)
    requires IsRun(Fresh(isServer, drop), evs)
    ensures var c := After(Fresh(isServer, drop), evs);
      && c.pending[HandleWriteFrame] <= 1
      && (HandleWriteFrame in c.pending <==> c.pump.currentMsgs != [])
      && (HandleWriteFrame in c.pending ==> c.pump.writeFlag && IsSuffix(c.pump.currentMsgs, c.pump.written))
  {
    hide IsRun, After, Apply;
    AfterKeeps(Fresh(isServer, drop), evs);
  }

  /** A queue that waits with the flag free always has a dispatch on its way. */
  lemma RunsLoseNoWakeup(isServer: bool, drop: bool, evs: seq<Event>)
    requires IsRun(Fresh(isServer, drop), evs)
    ensures var c := After(Fresh(isServer, drop), evs);
      c.pump.sendQueue != [] && !c.pump.writeFlag ==> WriteFrame in c.pending
  {
    hide IsRun, After, Apply;
    AfterKeeps(Fresh(isServer, drop), evs);
  }

  /** Once a terminal message has been handed over, nothing is ever written again. */
  lemma {:induction false} NothingAfterTerminal(c: Conn, evs: seq<Event>)
    requires Inv(c) && IsRun(c, evs)
    requires AnyTerminal(c.pump.written)
    ensures After(c, evs).pump.written == c.pump.written
    decreases |evs|
  {
    hide Apply;
    if evs != [] {
      ApplyKeeps(c, evs[0]);
      NothingAfterTerminal(Apply(c, evs[0]), evs[1..]);
    }
  }

  /** The two events that clear the queue: finish the write under way, then dispatch. */
  function DrainEvents(c: Conn): seq<Event> {
    if c.pump.writeFlag then [OnWriteFrame(NoError), OnDispatchedWrite] else [OnDispatchedWrite]
  }

  /**
   * Progress: while a write is under way or a wakeup is owed, and nothing
   * terminal is in the way, delivering the owed callbacks puts the whole queue
   * on the wire.
   */
  lemma QueueDrains(c: Conn)
    requires Inv(c) && c.pump.sendQueue != []
    requires !AnyTerminal(c.pump.pushed)
    requires c.pump.writeFlag ==> c.pump.currentMsgs != []
    ensures IsRun(c, DrainEvents(c))
    ensures After(c, DrainEvents(c)).pump.written == c.pump.pushed
    ensures After(c, DrainEvents(c)).pump.sendQueue == []
  {
    hide Apply;
    var p := c.pump;
    assert !AnyTerminal(p.sendQueue) && !AnyTerminal(p.written) by {
      assert forall i | 0 <= i < |p.sendQueue| :: p.sendQueue[i] == p.pushed[|p.written| + i];
      assert forall i | 0 <= i < |p.written| :: p.written[i] == p.pushed[i];
    }
    if p.writeFlag {
      var done := OnWriteFrame(NoError);
      ReleaseKeeps(p);
      ApplyKeeps(c, done);
      CompletionReleases(c);
      DispatchDrains(Apply(c, done));
      assert DrainEvents(c)[1..] == [OnDispatchedWrite];
    } else {
      DispatchDrains(c);
    }
  }

  lemma CompletionReleases(c: Conn)
    requires Inv(c) && c.pump.currentMsgs != [] && !c.pump.currentMsgs[|c.pump.currentMsgs| - 1].terminal
    ensures Enabled(c, OnWriteFrame(NoError))
    ensures Apply(c, OnWriteFrame(NoError)).pump == c.pump.(currentMsgs := [], writeFlag := false)
  {
    hide PumpInv, Deliver, DoHandleWriteFrame;
    var d := Consume(c, OnWriteFrame(NoError));
    assert d.pump == c.pump;
    hide Consume;
    DeliverWrites(d, OnWriteFrame(NoError));
    Releases(d);
  }

  lemma Releases(c: Conn)
    requires c.pump.currentMsgs != [] && !c.pump.currentMsgs[|c.pump.currentMsgs| - 1].terminal
    ensures DoHandleWriteFrame(c, NoError).pump == c.pump.(currentMsgs := [], writeFlag := false)
  {
    hide Terminate;
  }

  lemma DispatchDrains(c: Conn)
    requires Inv(c) && c.pump.sendQueue != [] && !AnyTerminal(c.pump.sendQueue) && !c.pump.writeFlag
    ensures IsRun(c, [OnDispatchedWrite])
    ensures After(c, [OnDispatchedWrite]).pump.written == c.pump.pushed
    ensures After(c, [OnDispatchedWrite]).pump.sendQueue == []
  {
    hide Deliver, DoWriteFrame, TerminalOnlyLast, AnyTerminal, IsSuffix;
    var d := Consume(c, OnDispatchedWrite);
    assert d.pump == c.pump;
    hide Consume;
    DeliverWrites(d, OnDispatchedWrite);
    TakesAll(d);
    assert [OnDispatchedWrite][1..] == [];
  }

  lemma TakesAll(c: Conn)
    requires c.pump.sendQueue != [] && !AnyTerminal(c.pump.sendQueue) && !c.pump.writeFlag && c.pump.currentMsgs == []
    ensures DoWriteFrame(c).pump.written == c.pump.written + c.pump.sendQueue && DoWriteFrame(c).pump.sendQueue == []
  {
    hide AnyTerminal, TerminalOnlyLast;
    var q := c.pump.sendQueue;
    BatchStopsAtTerminal(q);
    hide BatchSize;
    assert q[..|q|] == q && c.pump.currentMsgs + q == q && q[|q|..] == [];
  }
}
