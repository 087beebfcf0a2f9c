/**
 * The two invariants that hold in every run, put together for the methods of
 * the connection object: what each handler keeps of both.
 */
module Soundness {
  import opened SessionModel
  import Silence
  import WritePump

  predicate Sound(c: Conn) {
    WritePump.Inv(c) && Silence.Quiet(c, false)
  }

  /** Sound as before, no message taken back, and none written. */
  predicate Keeps(c: Conn, d: Conn) {
    Sound(c) ==> Sound(d) && c.pump.pushed <= d.pump.pushed && d.pump.written == c.pump.written
  }

  lemma TerminateKeeps(c: Conn, e: Error)
    requires e == HttpEnded ==> c.state == Connecting
    ensures Keeps(c, Terminate(c, e))
  {
    hide WritePump.Inv, Silence.Silent, Terminate;
    if Sound(c) {
      WritePump.TerminateKeeps(c, e);
      Silence.TerminateStep(c, e, false);
    }
  }

  /** Closed in the end, the transport shut down only on the way there, no handler called and the queue left alone. */
  predicate Ended(c: Conn, d: Conn) {
    && d.state == Closed
    && d.pump == c.pump
    && d.tally == c.tally.(shutdowns := c.tally.shutdowns + if c.state == Closed then 0 else 1)
  }

  lemma TerminateEnds(c: Conn, e: Error)
    ensures Ended(c, Terminate(c, e))
    ensures e != HttpEnded || c.state == Connecting ==> Keeps(c, Terminate(c, e))
  {
    hide Keeps, Stop;
    var noted := if e != NoError then c.(ec := e) else c;
    StopLeaves(Move(noted, Closed), if c.state == Connecting then Failed else WasOpen);
    assert Ended(c, Terminate(c, e));
    hide Terminate, Ended;
    if e != HttpEnded || c.state == Connecting {
      TerminateKeeps(c, e);
    }
  }

  lemma StopLeaves(c: Conn, status: TerminateStatus)
    ensures Stop(c, status).state == c.state && Stop(c, status).pump == c.pump
    ensures Stop(c, status).tally == c.tally.(shutdowns := c.tally.shutdowns + 1)
  {
  }

  lemma CallKeeps(c: Conn, call: UserCall)
    ensures Keeps(c, Call(c, call))
  {
    hide WritePump.Inv, Silence.Quiet, Call;
    if Sound(c) {
      WritePump.CallKeeps(c, call);
      Silence.CallStep(c, call, false);
    }
  }

  lemma RunCallsKeeps(c: Conn, calls: seq<UserCall>)
    ensures Keeps(c, RunCalls(c, calls))
  {
    hide WritePump.Inv, Silence.Quiet, RunCalls;
    if Sound(c) {
      WritePump.RunCallsKeeps(c, calls);
      Silence.RunCallsStep(c, calls, false);
    }
  }

  lemma CloseFrameKeeps(c: Conn, payload: string, ack: bool, terminal: bool, granted: bool)
    requires c.state == Open || c.state == Closing
    ensures Keeps(c, SendCloseFrame(c, payload, ack, terminal, granted))
  {
    hide WritePump.Inv, Silence.Quiet, SendCloseFrame;
    if Sound(c) {
      WritePump.CloseKeeps(c, payload, ack, terminal, granted);
      Silence.CloseFrameStep(c, payload, ack, terminal, granted, false);
    }
  }

  lemma ProcessCloseKeeps(c: Conn, f: Frame)
    requires f.CloseFrame? && (c.state == Open || c.state == Closing)
    ensures Keeps(c, ProcessClose(c, f))
  {
    hide WritePump.Inv, Silence.Quiet, ProcessClose;
    if Sound(c) {
      WritePump.ProcessCloseKeeps(c, f);
      Silence.ProcessCloseStep(c, f, false);
    }
  }

  lemma ProcessFrameKeeps(c: Conn, f: Frame)
    requires !f.ConsumeError? && c.state != Connecting
    ensures Keeps(c, ProcessFrame(c, f))
  {
    hide WritePump.Inv, Silence.Quiet, ProcessFrame;
    if Sound(c) {
      WritePump.ProcessFrameKeeps(c, f);
      Silence.ProcessFrameStep(c, f, false);
    }
  }

  lemma ConsumeErrorKeeps(c: Conn, f: Frame)
    requires f.ConsumeError?
    ensures Keeps(c, HandleConsumeError(c, f))
  {
    hide WritePump.Inv, Silence.Quiet, HandleConsumeError;
    if Sound(c) {
      WritePump.ConsumeErrorKeeps(c, f);
      Silence.ConsumeErrorStep(c, f, false);
    }
  }

  lemma ReadFrameKeeps(c: Conn, e: TransportError, frames: seq<Frame>)
    ensures Keeps(c, DoHandleReadFrame(c, e, frames))
  {
    hide WritePump.Inv, Silence.Quiet, DoHandleReadFrame;
    if Sound(c) {
      WritePump.ReadFrameKeeps(c, e, frames);
      Silence.ReadFrameStep(c, e, frames, false);
    }
  }

  lemma BecomeOpenKeeps(c: Conn, calls: seq<UserCall>, frames: seq<Frame>)
    requires c.state == Connecting
    ensures Keeps(c, BecomeOpen(c, calls, frames))
  {
    hide WritePump.Inv, Silence.OnlyClosesAfterClose, Silence.HasClose, Silence.CloseOnlyLast, BecomeOpen;
    if Sound(c) {
      WritePump.BecomeOpenKeeps(c, calls, frames);
      Silence.BecomeOpenStep(c, calls, frames, false);
    }
  }

  lemma StartKeeps(c: Conn)
    ensures Keeps(c, DoStart(c))
  {
    hide WritePump.Inv, Silence.Quiet, DoStart;
    if Sound(c) {
      WritePump.StartKeeps(c);
      Silence.StartStep(c, false);
    }
  }

  lemma TransportInitKeeps(c: Conn, e: TransportError, requestOk: bool)
    ensures Keeps(c, DoHandleTransportInit(c, e, requestOk))
  {
    hide WritePump.Inv, Silence.Quiet, DoHandleTransportInit;
    if Sound(c) {
      WritePump.TransportInitKeeps(c, e, requestOk);
      Silence.TransportInitStep(c, e, requestOk, false);
    }
  }

  lemma ReadHandshakeKeeps(c: Conn, e: TransportError, request: Request)
    ensures Keeps(c, DoHandleReadHandshake(c, e, request))
  {
    hide WritePump.Inv, Silence.Quiet, DoHandleReadHandshake;
    if Sound(c) {
      WritePump.ReadHandshakeKeeps(c, e, request);
      Silence.ReadHandshakeStep(c, e, request, false);
    }
  }

  lemma WriteErrorResponseKeeps(c: Conn, e: Error)
    ensures Keeps(c, WriteHttpResponseError(c, e))
  {
    hide WritePump.Inv, Silence.Quiet, WriteHttpResponseError, WriteHttpResponse;
    if Sound(c) {
      WritePump.ErrorResponseKeeps(c, e);
      Silence.WriteErrorResponseStep(c, e, false);
    }
  }

  lemma WriteHttpResponseKeeps(c: Conn, e: TransportError, calls: seq<UserCall>, frames: seq<Frame>)
    ensures Keeps(c, DoHandleWriteHttpResponse(c, e, calls, frames))
  {
    hide WritePump.Inv, Silence.Quiet, DoHandleWriteHttpResponse;
    if Sound(c) {
      WritePump.WriteHttpResponseKeeps(c, e, calls, frames);
      Silence.WriteHttpResponseStep(c, e, calls, frames, false);
    }
  }

  lemma SendHttpRequestKeeps(c: Conn, e: TransportError)
    ensures Keeps(c, DoHandleSendHttpRequest(c, e))
  {
    hide WritePump.Inv, Silence.Quiet, DoHandleSendHttpRequest;
    if Sound(c) {
      WritePump.SendHttpRequestKeeps(c, e);
      Silence.SendHttpRequestStep(c, e, false);
    }
  }

  lemma ReadHttpResponseKeeps(c: Conn, e: TransportError, response: Response, calls: seq<UserCall>, frames: seq<Frame>)
    ensures Keeps(c, DoHandleReadHttpResponse(c, e, response, calls, frames))
  {
    hide WritePump.Inv, Silence.Quiet, DoHandleReadHttpResponse;
    if Sound(c) {
      WritePump.ReadHttpResponseKeeps(c, e, response, calls, frames);
      Silence.ReadHttpResponseStep(c, e, response, calls, frames, false);
    }
  }

  lemma TimeoutKeeps(c: Conn, e: Error)
    ensures Keeps(c, DoTimeout(c, e))
  {
    hide WritePump.Inv, Silence.Quiet, DoTimeout;
    if Sound(c) {
      WritePump.TimeoutKeeps(c, e);
      Silence.TimeoutStep(c, e, false);
    }
  }

  lemma EndHandlerKeeps(c: Conn, status: TerminateStatus, calls: seq<UserCall>)
    ensures Keeps(c, DoHandleTerminate(c, status, calls))
  {
    hide WritePump.Inv, Silence.Quiet, DoHandleTerminate;
    if Sound(c) {
      WritePump.HandleTerminateKeeps(c, status, calls);
      Silence.EndHandlerStep(c, status, calls, false);
    }
  }

  /** The completion being handled is no longer owed, so the pump's invariant is whole again only afterwards. */
  lemma HandleWriteFrameKeeps(c: Conn, e: TransportError)
    requires c.pump.currentMsgs != [] && c.pending[HandleWriteFrame] == 0
    requires WritePump.PumpInv(c.pump) && Silence.Quiet(c, false)
    ensures Sound(DoHandleWriteFrame(c, e)) && DoHandleWriteFrame(c, e).pump.written == c.pump.written
  {
    hide WritePump.PumpInv, Silence.Quiet, DoHandleWriteFrame;
    WritePump.HandleWriteFrameKeeps(c, e);
    Silence.HandleWriteFrameStep(c, e, false);
  }

  /**
   * What a completed write leads to: closed with the flag held after an error
   * or a terminal message, and otherwise a free flag and a dispatch for a
   * waiting queue.  The invariants are whole again once the completion is gone
   * from what the transport owes.
   */
  predicate Completed(c: Conn, d: Conn, e: TransportError)
    requires c.pump.currentMsgs != []
  {
    var last := c.pump.currentMsgs[|c.pump.currentMsgs| - 1];
    && d.pump.currentMsgs == [] && d.pump.written == c.pump.written && d.pump.pushed == c.pump.pushed
    && (e != NoError || last.terminal ==> d.state == Closed && d.pump.writeFlag == c.pump.writeFlag)
    && (e == NoError && !last.terminal ==>
      d.state == c.state && !d.pump.writeFlag && (d.pump.sendQueue != [] ==> WriteFrame in d.pending))
    && (WritePump.PumpInv(c.pump) && Silence.Quiet(c, false) && c.pending[HandleWriteFrame] == 0 ==> Sound(d))
  }

  lemma CompletionEffect(c: Conn, e: TransportError)
    requires c.pump.currentMsgs != []
    ensures Completed(c, DoHandleWriteFrame(c, e), e)
  {
    hide WritePump.PumpInv, Silence.Quiet, Sound, Keeps, Terminate;
    var cleared := c.(pump := c.pump.(currentMsgs := []));
    TerminateEnds(cleared, e);
    TerminateEnds(cleared, NoError);
    WakesWaiting(cleared.(pump := cleared.pump.(writeFlag := false)));
    hide Wake;
    if WritePump.PumpInv(c.pump) && Silence.Quiet(c, false) && c.pending[HandleWriteFrame] == 0 {
      hide DoHandleWriteFrame;
      HandleWriteFrameKeeps(c, e);
    }
  }

  lemma WakesWaiting(c: Conn)
    ensures Wake(c).pump == c.pump && Wake(c).state == c.state
    ensures c.pump.sendQueue != [] && !c.pump.writeFlag ==> WriteFrame in Wake(c).pending
  {
  }

  // ----- Progress -----

  lemma FreshSound(isServer: bool, drop: bool)
    ensures Sound(Fresh(isServer, drop))
  {
  }

  /**
   * In every run, as long as the connection is not closed and nothing terminal
   * was pushed, delivering the write completion and the dispatch that are owed
   * puts everything pushed so far on the wire.
   */
  lemma RunsDrain(isServer: bool, drop: bool, evs: seq<Event>)
    requires IsRun(Fresh(isServer, drop), evs)
    ensures var c := After(Fresh(isServer, drop), evs);
      c.state != Closed && c.pump.sendQueue != [] && !WritePump.AnyTerminal(c.pump.pushed) ==>
        && IsRun(c, WritePump.DrainEvents(c))
        && After(c, WritePump.DrainEvents(c)).pump.written == c.pump.pushed
        && After(c, WritePump.DrainEvents(c)).pump.sendQueue == []
  {
    hide IsRun, After, Silence.Silent, Silence.PushesSecondCloseIn, WritePump.Inv, WritePump.DrainEvents,
      WritePump.AnyTerminal;
    var f := Fresh(isServer, drop);
    FreshSound(isServer, drop);
    WritePump.AfterKeeps(f, evs);
    Silence.RunsStep(f, evs, false);
    var c := After(f, evs);
    if c.state != Closed && c.pump.sendQueue != [] && !WritePump.AnyTerminal(c.pump.pushed) {
      WritePump.QueueDrains(c);
    }
  }
}
