/**
 * The connection object itself.  Its methods update the fields the way the
 * library's do; each is proved to take the abstract state `View()` where the
 * transition system of SessionModel says, so that what is proved about runs
 * holds of it.  The other clauses say what a handler may do and what it leaves
 * alone; `Keeps` stands for the invariants of WritePump and Silence, and for
 * messages being neither taken back nor written.
 */
module ConnectionObject {
  import opened SessionModel
  import opened Soundness
  import Effects
  import Lifecycle
  import Silence
  import WritePump
  import opened Wrappers

  class Connection {
    const isServer: bool
    const dropOnProtocolError: bool
    var state: State
    ghost var history: seq<State>
    var istate: IState
    var isHttp: bool
    var switching: bool
    var ec: Error
    var wasClean: bool
    var sendQueue: seq<Msg>
    var currentMsgs: seq<Msg>
    var writeFlag: bool
    var bufferSize: int
    var pending: multiset<Callback>  // what the transport owes
    ghost var tally: Tally
    ghost var pushed: seq<Msg>
    ghost var written: seq<Msg>

    ghost function View(): Conn
      reads this
    {
      Conn(isServer, dropOnProtocolError, state, history, istate, isHttp, switching, ec, wasClean, tally,
           Pump(sendQueue, currentMsgs, writeFlag, bufferSize, pushed, written), pending)
    }

    /** How often the open, the fail and the close handler were called. */
    ghost function Notified(): (nat, nat, nat)
      reads this
    {
      (tally.opens, tally.fails, tally.closes)
    }

    constructor (isServer: bool, dropOnProtocolError: bool)
      ensures View() == Fresh(isServer, dropOnProtocolError)
    {
      this.isServer, this.dropOnProtocolError := isServer, dropOnProtocolError;
      state, history := Connecting, [Connecting];
      istate, isHttp, switching, ec, wasClean := UserInit, false, false, NoError, false;
      sendQueue, currentMsgs, writeFlag, bufferSize, pending := [], [], false, 0, multiset{};
      tally, pushed, written := Tally(0, 0, 0, 0, 0), [], [];
    }

    // ----- Transport -----

    method Owe(cb: Callback)
      modifies `pending
      ensures View() == Post(old(View()), cb) && cb in pending
    {
      pending := pending + multiset{cb};
    }

    method MoveTo(s: State)
      modifies `state, `history
      ensures View() == Move(old(View()), s)
    {
      state := s;
      history := history + [s];
    }

    // ----- The write pump -----

    /** What was pushed stays what was written followed by the queue, and the size counter exact. */
    method WritePush(msg: Msg)
      modifies `sendQueue, `bufferSize, `pushed
      ensures View() == old(View()).(pump := Push(old(View()).pump, msg))
      ensures old(WritePump.PumpInv(View().pump)) ==> WritePump.PumpInv(View().pump)
      ensures old(pushed) < pushed && written == old(written)
    {
      if WritePump.PumpInv(View().pump) {
        WritePump.PushKeeps(View().pump, msg);
      }
      bufferSize := bufferSize + |msg.payload|;
      sendQueue := sendQueue + [msg];
      pushed := pushed + [msg];
    }

    method WritePop() returns (msg: Option<Msg>)
      modifies `sendQueue, `bufferSize
      ensures old(sendQueue) == [] ==> msg.None? && sendQueue == [] && bufferSize == old(bufferSize)
      ensures old(sendQueue) != [] ==>
        && msg == Some(old(sendQueue)[0])
        && sendQueue == old(sendQueue)[1..]
        && bufferSize == old(bufferSize) - |old(sendQueue)[0].payload|
    {
      if sendQueue == [] {
        return None;
      }
      msg := Some(sendQueue[0]);
      bufferSize := bufferSize - |sendQueue[0].payload|;
      sendQueue := sendQueue[1..];
    }

    method PushMessage(msg: Msg)
      modifies `sendQueue, `bufferSize, `pushed, `pending
      ensures View() == PushAndWake(old(View()), msg)
      ensures pushed == old(pushed) + [msg] && (writeFlag || Callback.WriteFrame in pending) && old(pending) <= pending
    {
      WritePush(msg);
      var needsWriting := !writeFlag && sendQueue != [];
      if needsWriting {
        Owe(Callback.WriteFrame);
      }
    }

    method WriteFrame()
      modifies `sendQueue, `currentMsgs, `bufferSize, `writeFlag, `written, `pending
      ensures View() == DoWriteFrame(old(View()))
    {
      hide BatchSize, TotalSize, Post;
      if writeFlag {
        return;
      }
      hide Pop;
      TakeBatch();
      if currentMsgs == [] {
        return;
      }
      writeFlag := true;
      written := written + currentMsgs;
      Owe(Callback.HandleWriteFrame);
    }

    method TakeBatch()
      modifies `sendQueue, `currentMsgs, `bufferSize
      ensures View() == old(View()).(pump := Pop(old(View()).pump))
    {
      hide BatchSize, TotalSize;
      PopBatch();
    }

    /** Moves the next batch: everything queued, or the messages up to the first terminal one. */
    method PopBatch()
      modifies `sendQueue, `currentMsgs, `bufferSize
      ensures var n := BatchSize(old(sendQueue));
        && sendQueue == old(sendQueue)[n..]
        && currentMsgs == old(currentMsgs) + old(sendQueue)[..n]
        && bufferSize == old(bufferSize) - TotalSize(old(sendQueue)[..n])
    {
      ghost var q := sendQueue;
      ghost var k := 0;  // messages moved so far
      var next := WritePop();
      while next.Some?
        invariant k <= |q|
        invariant next.Some? ==> k < |q| && next.value == q[k] && sendQueue == q[k + 1..]
        invariant next.None? ==> k == BatchSize(q) && sendQueue == q[k..]
        invariant next.Some? ==> BatchSize(q) == k + BatchSize(q[k..])
        invariant currentMsgs == old(currentMsgs) + q[..k]
        invariant bufferSize == old(bufferSize) - TotalSize(q[..k]) - if next.Some? then |next.value.payload| else 0
        decreases |q| - k, next.Some?
      {
        currentMsgs := currentMsgs + [next.value];
        BatchTail(q, k);
        k := k + 1;
        if !next.value.terminal {
          next := WritePop();
        } else {
          next := None;
        }
      }
    }

    static lemma BatchTail(q: seq<Msg>, k: nat)
      requires k < |q|
      ensures q[..k + 1] == q[..k] + [q[k]]
      ensures TotalSize(q[..k + 1]) == TotalSize(q[..k]) + |q[k].payload|
      ensures BatchSize(q[k..]) == if q[k].terminal then 1 else 1 + BatchSize(q[k + 1..])
      ensures k + 1 == |q| ==> BatchSize(q[k + 1..]) == 0
    {
      WritePump.TotalSizeAppend(q[..k], [q[k]]);
      assert TotalSize([q[k]]) == |q[k].payload|;
      assert q[..k + 1] == q[..k] + [q[k]] && q[k..][1..] == q[k + 1..];
    }

    /**
     * A write completed; there must have been one.  It starts no other write
     * itself.  After an error or a terminal message the connection is closed
     * with the flag held; otherwise the flag is free, and a waiting queue has a
     * dispatch on its way.
     */
    method HandleWriteFrame(e: TransportError)
      requires currentMsgs != []
      modifies `currentMsgs, `writeFlag, `state, `history, `ec, `tally, `pending
      ensures View() == DoHandleWriteFrame(old(View()), e)
      ensures Completed(old(View()), View(), e)
      ensures e != NoError ==> ec == e
    {
      hide Completed, Keeps, SessionModel.Terminate, Post, DoHandleWriteFrame;
      CompletionEffect(View(), e);
      CompletionStep(View(), e);
      var terminal := FinishBatch();
      if e != NoError {
        Terminate(e);
        return;
      }
      if terminal {
        Terminate(NoError);
        return;
      }
      var needsWriting := ReleaseFlag();
      if needsWriting {
        Owe(Callback.WriteFrame);
      }
    }

    method FinishBatch() returns (terminal: bool)
      requires currentMsgs != []
      modifies `currentMsgs
      ensures View() == old(View()).(pump := old(View()).pump.(currentMsgs := []))
      ensures terminal == old(currentMsgs)[|old(currentMsgs)| - 1].terminal
    {
      terminal := currentMsgs[|currentMsgs| - 1].terminal;
      currentMsgs := [];
    }

    method ReleaseFlag() returns (needsWriting: bool)
      modifies `writeFlag
      ensures View() == old(View()).(pump := old(View()).pump.(writeFlag := false))
      ensures needsWriting <==> sendQueue != []
    {
      writeFlag := false;
      needsWriting := sendQueue != [];
    }

    static lemma CompletionStep(c: Conn, e: TransportError)
      requires c.pump.currentMsgs != []
      ensures
        var cleared := c.(pump := c.pump.(currentMsgs := []));
        var freed := cleared.(pump := cleared.pump.(writeFlag := false));
        DoHandleWriteFrame(c, e) ==
          if e != NoError then SessionModel.Terminate(cleared, e)
          else if c.pump.currentMsgs[|c.pump.currentMsgs| - 1].terminal then SessionModel.Terminate(cleared, NoError)
          else if c.pump.sendQueue == [] then freed
          else Post(freed, Callback.WriteFrame)
    {
      hide SessionModel.Terminate, Post;
    }

    // ----- Shutdown -----

    method AsyncShutdown(status: TerminateStatus)
      modifies `tally, `pending
      ensures View() == Stop(old(View()), status)
    {
      tally := tally.(shutdowns := tally.shutdowns + 1);
      Owe(HandleTerminate(status));
    }

    /**
     * Always ends in Closed, shutting the transport down only on the way there;
     * calls no handler and leaves the queue alone.
     */
    method Terminate(e: Error)
      modifies `state, `history, `ec, `tally, `pending
      ensures View() == SessionModel.Terminate(old(View()), e)
      ensures Ended(old(View()), View())
      ensures ec == (if e == NoError then old(ec) else e)
      ensures old(state) != Closed ==>
        pending == old(pending) + multiset{HandleTerminate(if old(state) == Connecting then Failed else WasOpen)}
      ensures e != HttpEnded || old(state) == Connecting ==> Keeps(old(View()), View())
    {
      hide Stop, Keeps, Ended, SessionModel.Terminate;
      ghost var before := View();
      Effects.TerminateSays(before, e);
      TerminateEnds(before, e);
      TerminateSteps(before, e);
      ghost var noted := if e != NoError then before.(ec := e) else before;
      if e != NoError {
        ec := e;
      }
      assert View() == noted;
      var status: TerminateStatus;
      if state == Connecting {
        MoveTo(Closed);
        status := Failed;
      } else if state != Closed {
        MoveTo(Closed);
        status := WasOpen;
      } else {
        return;
      }
      AsyncShutdown(status);
    }

    static lemma TerminateSteps(c: Conn, e: Error)
      ensures
        var noted := if e != NoError then c.(ec := e) else c;
        SessionModel.Terminate(c, e) ==
          if c.state == Closed then noted
          else Stop(Move(noted, Closed), if c.state == Connecting then Failed else WasOpen)
    {
      hide Stop;
    }

    method NotifyEnd(status: TerminateStatus, calls: seq<UserCall>)
      modifies this
      ensures View() == CallEndHandler(old(View()), status, calls)
      ensures tally == old(match status
        case Failed => if ec == HttpEnded then tally else tally.(fails := tally.fails + 1)
        case WasOpen => tally.(closes := tally.closes + 1))
      ensures old(state) != Open ==> state == old(state) && View().pump == old(View().pump)
    {
      hide RunCalls;
      match status {
        case Failed =>
          if ec == HttpEnded {
            return;
          }
          tally := tally.(fails := tally.fails + 1);
        case WasOpen =>
          tally := tally.(closes := tally.closes + 1);
      }
      RunHandler(calls);
    }

    /**
     * Calls the fail handler or the close handler, never both, and neither when
     * an HTTP handler ended the connection; once the connection is closed, what
     * the handler calls has no effect.
     */
    method HandleTerminated(status: TerminateStatus, calls: seq<UserCall>)
      modifies this
      ensures View() == DoHandleTerminate(old(View()), status, calls)
      ensures tally.opens == old(tally.opens) && tally.shutdowns == old(tally.shutdowns)
      ensures tally.terminations == old(tally.terminations) + 1
      ensures tally.fails + tally.closes ==
        old(tally.fails + tally.closes + if status == Failed && ec == HttpEnded then 0 else 1)
      ensures tally.fails > old(tally.fails) ==> status == Failed && old(ec) != HttpEnded
      ensures old(state) == Closed ==> state == Closed && View().pump == old(View().pump)
      ensures Keeps(old(View()), View())
    {
      hide CallEndHandler, Keeps;
      EndHandlerKeeps(View(), status, calls);
      NotifyEnd(status, calls);
      tally := tally.(terminations := tally.terminations + 1);
    }

    // ----- User calls -----

    method SendMessage(msg: Msg, prepared: bool, granted: bool) returns (ok: bool)
      requires msg.kind == Data && (!prepared ==> !msg.terminal)
      modifies `sendQueue, `bufferSize, `pushed, `pending
      ensures View() ==
        Call(old(View()), if prepared then SendPrepared(msg.payload, msg.terminal) else Send(msg.payload, granted))
      ensures ok <==> old(state) == Open && (prepared || granted)
      ensures pushed == old(pushed) + (if ok then [msg] else []) && tally == old(tally) && state == old(state)
      ensures Keeps(old(View()), View())
    {
      hide Keeps;
      CallKeeps(View(), if prepared then SendPrepared(msg.payload, msg.terminal) else Send(msg.payload, granted));
      if state != Open {
        return false;
      }
      if !prepared && !granted {
        return false;
      }
      PushMessage(msg);
      ok := true;
    }

    /** Pushes a ping exactly when open and granted a buffer. */
    method Ping(payload: string, granted: bool)
      modifies `sendQueue, `bufferSize, `pushed, `pending
      ensures View() == Call(old(View()), SendPing(payload, granted))
      ensures pushed == old(pushed) + (if old(state) == Open && granted then [Msg(Kind.Ping, payload, false)] else [])
      ensures pushed != old(pushed) ==> writeFlag || Callback.WriteFrame in pending
      ensures tally == old(tally) && state == old(state) && Keeps(old(View()), View())
    {
      hide Keeps;
      CallKeeps(View(), SendPing(payload, granted));
      if state != Open || !granted {
        return;
      }
      PushMessage(Msg(Kind.Ping, payload, false));
    }

    /** Pushes a pong exactly when open and granted a buffer. */
    method Pong(payload: string, granted: bool)
      modifies `sendQueue, `bufferSize, `pushed, `pending
      ensures View() == Call(old(View()), SendPong(payload, granted))
      ensures pushed == old(pushed) + (if old(state) == Open && granted then [Msg(Kind.Pong, payload, false)] else [])
      ensures pushed != old(pushed) ==> writeFlag || Callback.WriteFrame in pending
      ensures tally == old(tally) && state == old(state) && Keeps(old(View()), View())
    {
      hide Keeps;
      CallKeeps(View(), SendPong(payload, granted));
      if state != Open || !granted {
        return;
      }
      PushMessage(Msg(Kind.Pong, payload, false));
    }

    method Close(code: nat, payload: string, granted: bool) returns (e: Error)
      modifies `state, `history, `wasClean, `sendQueue, `bufferSize, `pushed, `pending
      ensures View() == Call(old(View()), CloseCall(code, payload, granted))
      ensures e == if old(state) != Open then InvalidState else if granted then NoError else OtherError
      ensures e == NoError ==>
        && state == Closing && wasClean == old(wasClean)
        && pushed == old(pushed) + [Msg(Kind.Close, payload, code in {1002, 1007, 1008, 1009, 1011})]
      ensures e != NoError ==> View() == old(View())
      ensures tally == old(tally) && Keeps(old(View()), View())
    {
      hide Keeps;
      CallKeeps(View(), CloseCall(code, payload, granted));
      if state != Open {
        return InvalidState;
      }
      var ok := SendCloseFrame(payload, false, TerminalCode(code), granted);
      e := if ok then NoError else OtherError;
    }

    /**
     * Either nothing happens, or the connection is closing, the timer is set, and
     * one close frame is on its way out.
     */
    method SendCloseFrame(payload: string, ack: bool, terminal: bool, granted: bool) returns (ok: bool)
      modifies `state, `history, `wasClean, `sendQueue, `bufferSize, `pushed, `pending
      ensures View() == SessionModel.SendCloseFrame(old(View()), payload, ack, terminal, granted)
      ensures ok == granted && (!ok ==> View() == old(View()))
      ensures ok ==>
        state == Closing && CloseTimer in pending && pushed == old(pushed) + [Msg(Kind.Close, payload, terminal)]
      ensures ok ==> writeFlag || Callback.WriteFrame in pending
      ensures wasClean == (old(wasClean) || (ok && ack))
      ensures tally == old(tally)
      ensures old(state) == Open || old(state) == Closing ==> Keeps(old(View()), View())
    {
      hide PushAndWake, BeginClosing, Keeps;
      if state == Open || state == Closing {
        CloseFrameKeeps(View(), payload, ack, terminal, granted);
      }
      if !granted {
        return false;
      }
      StartClosing(ack);
      PushMessage(Msg(Kind.Close, payload, terminal));
      ok := true;
    }

    method StartClosing(ack: bool)
      modifies `state, `history, `wasClean, `pending
      ensures View() == BeginClosing(old(View()), ack)
      ensures state == Closing && CloseTimer in pending && wasClean == (old(wasClean) || ack)
    {
      MoveTo(Closing);
      if ack {
        wasClean := true;
      }
      Owe(CloseTimer);
    }

    method Perform(call: UserCall)
      modifies `state, `history, `wasClean, `sendQueue, `bufferSize, `pushed, `pending
      ensures View() == Call(old(View()), call)
      ensures tally == old(tally)
    {
      match call
      case SendPrepared(payload, terminal) => var _ := SendMessage(Msg(Data, payload, terminal), true, true);
      case Send(payload, granted) => var _ := SendMessage(Msg(Data, payload, false), false, granted);
      case SendPing(payload, granted) => Ping(payload, granted);
      case SendPong(payload, granted) => Pong(payload, granted);
      case CloseCall(code, payload, granted) => var _ := Close(code, payload, granted);
    }

    /** A user handler runs and calls back; only while open does that have any effect. */
    method RunHandler(calls: seq<UserCall>)
      modifies `state, `history, `wasClean, `sendQueue, `bufferSize, `pushed, `pending
      ensures View() == RunCalls(old(View()), calls)
      ensures tally == old(tally) && (old(state) != Open ==> View() == old(View()))
      ensures old(state) == Open ==> pushed == old(pushed) + Effects.Spoken(calls)
    {
      hide Call, RunCalls, Effects.Spoken;
      ghost var before := View();
      if state != Open {
        Lifecycle.NotOpenIgnoresCalls(View(), calls);
      } else {
        Effects.CallsSay(View(), calls);
      }
      assert calls[0..] == calls;
      for i := 0 to |calls|
        invariant RunCalls(View(), calls[i..]) == RunCalls(before, calls)
        invariant tally == old(tally)
      {
        RunCallsStep(View(), calls[i..]);
        assert calls[i..][1..] == calls[i + 1..];
        Perform(calls[i]);
      }
      RunCallsStep(View(), calls[|calls|..]);
    }

    static lemma RunCallsStep(c: Conn, calls: seq<UserCall>)
      ensures RunCalls(c, calls) == if calls == [] then c else RunCalls(Call(c, calls[0]), calls[1..])
    {
    }

    // ----- Reading -----

    /**
     * Pushes nothing but one close frame; while closing, that happens exactly
     * when a malformed close frame is answered again.  A granted answer to the
     * peer's close ends the open state.
     */
    method ReceiveClose(f: Frame)
      requires f.CloseFrame?
      modifies `state, `history, `wasClean, `ec, `tally, `sendQueue, `bufferSize, `pushed, `pending
      ensures View() == ProcessClose(old(View()), f)
      ensures pushed == old(pushed) || pushed == old(pushed) + [Msg(Kind.Close, f.payload, isServer)]
      ensures old(state) == Closing ==> (pushed != old(pushed) <==> Silence.AnswersAgain(old(View()), f))
      ensures old(state) == Open && f.granted ==> state == Closing || state == Closed
      ensures old(state) == Closing && f.wellFormed ==> wasClean && (state == Closed <==> isServer && !old(wasClean))
      ensures Notified() == old(Notified())
      ensures old(state) == Open || old(state) == Closing ==> Keeps(old(View()), View())
    {
      hide SessionModel.Terminate, SessionModel.SendCloseFrame, Keeps;
      if state == Open || state == Closing {
        ProcessCloseKeeps(View(), f);
      }
      if state == Closing {
        Effects.ClosingCloseSays(View(), f);
      }
      if !f.wellFormed {
        if dropOnProtocolError {
          Terminate(OtherError);
        } else {
          var _ := SendCloseFrame(f.payload, true, isServer, f.granted);
        }
        return;
      }
      if state == Open {
        var _ := SendCloseFrame(f.payload, true, isServer, f.granted);
      } else if state == Closing && !wasClean {
        wasClean := true;
        if isServer {
          Terminate(NoError);
        }
      }
    }

    /**
     * An open connection pushes what the frame's handler calls, then the answer to
     * the frame: to a ping a pong, if the ping handler wants one, a buffer is
     * granted and the calls left the connection open.  A closed connection ignores
     * every frame; a closing one pushes something only when it answers a malformed
     * close frame again.
     */
    method DispatchFrame(f: Frame)
      requires !f.ConsumeError?
      modifies `state, `history, `wasClean, `ec, `tally, `sendQueue, `bufferSize, `pushed, `pending
      ensures View() == ProcessFrame(old(View()), f)
      ensures old(state) == Open ==>
        && pushed == old(pushed) + Effects.Reply(isServer, dropOnProtocolError, f)
        && state == Effects.Outcome(dropOnProtocolError, f)
      ensures old(state) == Open && f.PingFrame? && f.calls == [] ==>
        pushed == old(pushed) + (if f.shouldReply && f.granted then [Msg(Kind.Pong, f.payload, false)] else [])
      ensures old(state) == Closed ==> View() == old(View())
      ensures old(state) == Closing ==> (pushed != old(pushed) <==> Silence.AnswersAgain(old(View()), f))
      ensures Notified() == old(Notified())
      ensures old(state) != Connecting ==> Keeps(old(View()), View())
    {
      hide Call, RunCalls, ProcessClose, Keeps, Effects.Reply, Effects.Outcome, Effects.Spoken;
      if state != Connecting {
        ProcessFrameKeeps(View(), f);
      }
      if state == Open {
        Effects.FrameSays(View(), f);
        Effects.PlainPing(isServer, dropOnProtocolError, f);
      }
      match f
      case DataFrame(calls) =>
        if state == Open {
          RunHandler(calls);
        }
      case PingFrame(payload, calls, shouldReply, granted) =>
        if state == Open {
          RunHandler(calls);
          if shouldReply {
            Pong(payload, granted);
          }
        }
      case PongFrame(calls) =>
        if state == Open {
          RunHandler(calls);
        }
      case CloseFrame(_, _, _) =>
        if state != Closed {
          ReceiveClose(f);
        }
      case UnknownControlFrame =>
    }

    /** Whatever the state was, an error of the processor leaves the connection closing or closed. */
    method ConsumeFailed(f: Frame)
      requires f.ConsumeError?
      modifies `state, `history, `wasClean, `ec, `tally, `sendQueue, `bufferSize, `pushed, `pending
      ensures View() == HandleConsumeError(old(View()), f)
      ensures state == Closing || state == Closed
      ensures state == Closing <==> old(state) == Open && !dropOnProtocolError && f.granted
      ensures state == Closing ==>
        pushed == old(pushed) + [Msg(Kind.Close, f.payload, f.code in {1002, 1007, 1008, 1009, 1011})]
      ensures state == Closed ==> pushed == old(pushed)
      ensures Notified() == old(Notified()) && Keeps(old(View()), View())
    {
      hide Keeps;
      ConsumeErrorKeeps(View(), f);
      if dropOnProtocolError {
        Terminate(OtherError);
        return;
      }
      var e := Close(f.code, f.payload, f.granted);
      if e != NoError {
        Terminate(e);
      }
    }

    /** After a transport error the connection is closed, and no frame has been looked at. */
    method HandleReadFrame(e: TransportError, frames: seq<Frame>)
      modifies `state, `history, `wasClean, `ec, `tally, `sendQueue, `bufferSize, `pushed, `pending
      ensures View() == DoHandleReadFrame(old(View()), e, frames)
      ensures e != NoError ==> state == Closed && View().pump == old(View().pump)
      ensures e == Eof ==>
        ec == if old(state) == Closed || (old(state) == Closing && !isServer) then old(ec) else Eof
      ensures e != NoError && e != Eof ==> ec == e
      ensures e == NoError && old(state) == Open && old(istate) == ProcessConnection ==>
        old(pushed) + Effects.Replies(isServer, dropOnProtocolError, frames) <= pushed
      ensures Notified() == old(Notified()) && Keeps(old(View()), View())
    {
      hide SessionModel.Terminate, ProcessFrame, HandleConsumeError, Keeps, Effects.Replies;
      ReadFrameKeeps(View(), e, frames);
      if e != NoError {
        Effects.ReadErrorSays(View(), e, frames);
      } else if state == Open {
        Effects.FramesSay(View(), frames);
      }
      var ecm: Error := e;
      if ecm == NoError && istate != ProcessConnection {
        ecm := InvalidState;
      }
      if ecm != NoError {
        if ecm == Eof {
          if state == Closed {
            return;
          } else if state == Closing && !isServer {
            Terminate(NoError);
            return;
          }
        } else if ecm == InvalidState {
          if state == Closed {
            return;
          }
        }
        Terminate(ecm);
        return;
      }
      ReadFrames(frames);
    }

    method ReadFrames(frames: seq<Frame>)
      modifies `state, `history, `wasClean, `ec, `tally, `sendQueue, `bufferSize, `pushed, `pending
      ensures View() == ProcessFrames(old(View()), frames)
      ensures Notified() == old(Notified())
    {
      hide ProcessFrame, HandleConsumeError, Keeps;
      var p := 0;
      while p < |frames|
        invariant p <= |frames|
        invariant ProcessFrames(View(), frames[p..]) == ProcessFrames(old(View()), frames)
        invariant Notified() == old(Notified())
      {
        assert frames[p..][1..] == frames[p + 1..];
        if frames[p].ConsumeError? {
          ConsumeFailed(frames[p]);
          return;
        }
        DispatchFrame(frames[p]);
        p := p + 1;
      }
      Owe(Callback.HandleReadFrame);
    }

    // ----- Opening handshake -----

    /** A second start closes the connection; a first one leaves its state. */
    method Begin()
      modifies `istate, `state, `history, `ec, `tally, `pending
      ensures View() == DoStart(old(View()))
      ensures state == if old(istate) == UserInit then old(state) else Closed
      ensures old(istate) == UserInit ==> istate != UserInit
      ensures View().pump == old(View().pump) && Notified() == old(Notified()) && Keeps(old(View()), View())
    {
      hide SessionModel.Terminate, Keeps;
      StartKeeps(View());
      if istate != UserInit {
        Terminate(InvalidState);
        return;
      }
      istate := TransportInit;
      Owe(HandleTransportInit);
    }

    /** A handshake step: it pushes and writes nothing and calls no handler; an error closes the connection. */
    method HandleTransportReady(e: TransportError, requestOk: bool)
      modifies `istate, `state, `history, `ec, `tally, `pending
      ensures View() == DoHandleTransportInit(old(View()), e, requestOk)
      ensures state == old(state) || state == Closed
      ensures e != NoError ==> state == Closed
      ensures e == NoError && old(istate) == TransportInit ==>
        pending == old(pending) +
          if isServer then multiset{OpenTimer, HandleReadHandshake}
          else if requestOk then multiset{OpenTimer, HandleSendHttpRequest} else multiset{}
      ensures View().pump == old(View().pump) && Notified() == old(Notified()) && Keeps(old(View()), View())
    {
      hide SessionModel.Terminate, Keeps;
      TransportInitKeeps(View(), e, requestOk);
      var ecm: Error := e;
      if istate != TransportInit {
        ecm := InvalidState;
      }
      if ecm != NoError {
        Terminate(ecm);
        return;
      }
      if isServer {
        istate := ReadHttpRequest;
        pending := pending + multiset{OpenTimer, HandleReadHandshake};
      } else {
        istate := WriteHttpRequest;
        if requestOk {
          pending := pending + multiset{OpenTimer, HandleSendHttpRequest};
        }
      }
    }

    /** The checks every handshake completion starts with; it goes on only while connecting, and otherwise is closed. */
    method PassesCheck(e: TransportError, expected: IState) returns (proceed: bool)
      modifies `state, `history, `ec, `tally, `pending
      ensures proceed <==> CheckHandshake(old(View()), e, expected) == Proceed
      ensures View() == match CheckHandshake(old(View()), e, expected)
        case Ignore => old(View())
        case Fail(ecm) => SessionModel.Terminate(old(View()), ecm)
        case Proceed => old(View())
      ensures proceed <==> old(state) == Connecting && old(istate) == expected && e == NoError
      ensures proceed || (old(state) == Closed && (e == NoError || e == Eof)) ==> View() == old(View())
      ensures !proceed ==> state == Closed
      ensures View().pump == old(View().pump) && Notified() == old(Notified())
    {
      hide SessionModel.Terminate, Keeps;
      var ecm: Error := e;
      if ecm == NoError {
        if state == Connecting {
          if istate != expected {
            ecm := InvalidState;
          }
        } else if state == Closed {
          return false;
        } else {
          ecm := InvalidState;
        }
      } else if ecm == Eof && state == Closed {
        return false;
      }
      if ecm != NoError {
        Terminate(ecm);
        return false;
      }
      proceed := true;
    }

    method RespondHttp(e: Error)
      modifies `ec, `pending
      ensures View() == WriteHttpResponse(old(View()), e)
      ensures e != HttpEnded ==> HandleWriteHttpResponse in pending
    {
      if e == HttpEnded {
        return;
      }
      ec := e;
      Owe(HandleWriteHttpResponse);
    }

    /** An error response never switches protocols: either one is being written, or the connection is closed. */
    method RespondHttpError(e: Error)
      modifies `istate, `switching, `state, `history, `ec, `tally, `pending
      ensures View() == WriteHttpResponseError(old(View()), e)
      ensures state == old(state) || state == Closed
      ensures e != HttpEnded && old(istate) == ReadHttpRequest ==> HandleWriteHttpResponse in pending && !switching
      ensures old(istate) != ReadHttpRequest ==> state == Closed
      ensures View().pump == old(View().pump) && Notified() == old(Notified()) && Keeps(old(View()), View())
    {
      hide SessionModel.Terminate, WriteHttpResponse, Keeps;
      WriteErrorResponseKeeps(View(), e);
      if istate != ReadHttpRequest {
        Terminate(InvalidState);
        return;
      }
      istate := ProcessHttpRequest;
      switching := false;
      RespondHttp(e);
    }

    /** Reading the request opens nothing, pushes nothing and calls none of the three handlers; it can only close. */
    method HandleHandshakeRead(e: TransportError, request: Request)
      modifies `istate, `isHttp, `switching, `state, `history, `ec, `tally, `pending
      ensures View() == DoHandleReadHandshake(old(View()), e, request)
      ensures state == Closed || (state == Connecting && old(state) == Connecting && e == NoError)
      ensures
        old(state) == Connecting && old(istate) == ReadHttpRequest && e == NoError && Effects.IsAnswered(request) ==>
        state == Connecting && HandleWriteHttpResponse in pending && switching == Effects.Switches(request)
      ensures Notified() == old(Notified()) && Keeps(old(View()), View())
    {
      hide SessionModel.Terminate, ConsumeRequest, CheckHandshake, Keeps;
      ReadHandshakeKeeps(View(), e, request);
      if state == Connecting && istate == ReadHttpRequest {
        Effects.RequestSays(View(), request);
      }
      var proceed := PassesCheck(e, ReadHttpRequest);
      if proceed {
        HandleRequest(request);
      }
    }

    method HandleRequest(request: Request)
      modifies `istate, `isHttp, `switching, `state, `history, `ec, `tally, `pending
      ensures View() == ConsumeRequest(old(View()), request)
      ensures state == old(state) || state == Closed
      ensures Notified() == old(Notified())
    {
      hide SessionModel.Terminate, WriteHttpResponse, WriteHttpResponseError, AnswerPlainHttp, Keeps, Post;
      match request
      case BoundsError => Terminate(OtherError);
      case ParseError => RespondHttpError(OtherError);
      case ProcessorError => RespondHttpError(OtherError);
      case NeedMoreRequest => Owe(HandleReadHandshake);
      case WebSocketRequest(accepted, error) => HandleUpgrade(accepted, error);
      case PlainHttp(terminated, reason, deferred, status101) =>
        istate := ProcessHttpRequest;
        HandlePlainRequest(terminated, reason, deferred, status101);
    }

    method HandleUpgrade(accepted: bool, error: TransportError)
      modifies `istate, `switching, `ec, `pending
      ensures View() == WriteHttpResponse(
        old(View()).(istate := ProcessHttpRequest, switching := accepted), if accepted then NoError else error)
    {
      hide WriteHttpResponse;
      istate := ProcessHttpRequest;
      switching := accepted;
      assert View() == old(View()).(istate := ProcessHttpRequest, switching := accepted);
      RespondHttp(if accepted then NoError else error);
    }

    method MarkHttp(status101: bool)
      modifies `isHttp, `switching
      ensures View() == old(View()).(isHttp := true, switching := status101)
    {
      isHttp := true;
      switching := status101;
    }

    /** A user handler answers a plain HTTP request, unless it ends the connection or answers later. */
    method HandlePlainRequest(terminated: bool, reason: Error, deferred: bool, status101: bool)
      modifies `isHttp, `switching, `state, `history, `ec, `tally, `pending
      ensures View() == AnswerPlainHttp(old(View()), terminated, reason, deferred, status101)
      ensures state == if terminated then Closed else old(state)
      ensures Notified() == old(Notified())
    {
      hide SessionModel.Terminate, WriteHttpResponse, Keeps;
      MarkHttp(status101);
      if terminated {
        Terminate(reason);
      }
      if !deferred {
        RespondHttp(if state == Closed then HttpEnded else NoError);
      }
    }

    method MarkOpen()
      modifies `istate, `state, `history, `tally
      ensures View() == Opened(old(View())) && Notified() == old(Notified()).(0 := old(tally.opens) + 1)
    {
      istate := ProcessConnection;
      MoveTo(Open);
      tally := tally.(opens := tally.opens + 1);
    }

    method OpenConnection(calls: seq<UserCall>, frames: seq<Frame>)
      modifies this
      ensures View() == BecomeOpen(old(View()), calls, frames)
      ensures Notified() == (old(tally.opens) + 1, old(tally.fails), old(tally.closes))
    {
      hide RunCalls, DoHandleReadFrame, Keeps, Opened;
      MarkOpen();
      RunHandler(calls);
      HandleReadFrame(NoError, frames);
    }

    /** The open handler is called once at most, and only while connecting, without an error and with a 101 response. */
    method HandleResponseWritten(e: TransportError, calls: seq<UserCall>, frames: seq<Frame>)
      modifies this
      ensures View() == DoHandleWriteHttpResponse(old(View()), e, calls, frames)
      ensures Notified() == old(Notified()).(0 := old(tally.opens) +
        if old(state) == Connecting && old(istate) == ProcessHttpRequest && e == NoError && old(switching) then 1
        else 0)
      ensures Notified() == old(Notified()) ==> state == Closed && View().pump == old(View().pump)
      ensures old(state) == Connecting && old(istate) == ProcessHttpRequest && e == NoError && !old(switching) ==>
        ec == if old(isHttp) then HttpEnded else old(ec)
      ensures Keeps(old(View()), View())
    {
      hide SessionModel.Terminate, BecomeOpen, CheckHandshake, Keeps;
      WriteHttpResponseKeeps(View(), e, calls, frames);
      var proceed := PassesCheck(e, ProcessHttpRequest);
      if !proceed {
        return;
      }
      if !switching {
        Terminate(if isHttp then HttpEnded else ec);
        return;
      }
      OpenConnection(calls, frames);
    }

    /** The request was sent: on to the response, or closed. */
    method HandleRequestSent(e: TransportError)
      modifies `istate, `state, `history, `ec, `tally, `pending
      ensures View() == DoHandleSendHttpRequest(old(View()), e)
      ensures state == Closed || (state == Connecting && old(state) == Connecting && e == NoError &&
        HandleReadHttpResponse in pending)
      ensures View().pump == old(View().pump) && Notified() == old(Notified()) && Keeps(old(View()), View())
    {
      hide SessionModel.Terminate, CheckHandshake, Keeps;
      SendHttpRequestKeeps(View(), e);
      var proceed := PassesCheck(e, WriteHttpRequest);
      if proceed {
        istate := ReadHttpResponse;
        Owe(HandleReadHttpResponse);
      }
    }

    /** The open handler is called once at most, and only while connecting, without an error and on a valid response. */
    method HandleResponseRead(e: TransportError, response: Response, calls: seq<UserCall>, frames: seq<Frame>)
      modifies this
      ensures View() == DoHandleReadHttpResponse(old(View()), e, response, calls, frames)
      ensures Notified() == old(Notified()).(0 := old(tally.opens) +
        if old(state) == Connecting && old(istate) == ReadHttpResponse && e == NoError && response.ValidHandshake?
        then 1 else 0)
      ensures Notified() == old(Notified()) ==>
        View().pump == old(View().pump) && (state == Closed || response.NeedMoreResponse?)
      ensures Keeps(old(View()), View())
    {
      hide SessionModel.Terminate, BecomeOpen, CheckHandshake, Keeps;
      ReadHttpResponseKeeps(View(), e, response, calls, frames);
      var proceed := PassesCheck(e, ReadHttpResponse);
      if !proceed {
        return;
      }
      match response
      case MalformedResponse => Terminate(OtherError);
      case NeedMoreResponse => Owe(HandleReadHttpResponse);
      case InvalidHandshake => Terminate(OtherError);
      case ValidHandshake(negotiated) =>
        if !negotiated {
          Terminate(OtherError);
        }
        OpenConnection(calls, frames);
    }

    /**
     * A timer that fires closes the connection, shutting the transport down once;
     * one that was cancelled changes nothing.
     */
    method HandleTimeout(e: TransportError)
      modifies `state, `history, `ec, `tally, `pending
      ensures View() == DoTimeout(old(View()), e)
      ensures e != NoError ==> View() == old(View())
      ensures e == NoError ==>
        && state == Closed && ec == OtherError
        && tally.shutdowns == old(tally.shutdowns) + if old(state) == Closed then 0 else 1
      ensures View().pump == old(View().pump) && Notified() == old(Notified()) && Keeps(old(View()), View())
    {
      hide SessionModel.Terminate, Keeps;
      TimeoutKeeps(View(), e);
      if e == NoError {
        Terminate(OtherError);
      }
    }

    // ----- Events -----

    method HandleHandshakeEvent(ev: Event)
      requires ev.OnTransportInit? || ev.OnReadHandshake? || ev.OnWriteHttpResponse? || ev.OnSendHttpRequest?
        || ev.OnReadHttpResponse?
      modifies this
      ensures View() == Deliver(old(View()), ev)
    {
      hide DoHandleTransportInit, DoHandleReadHandshake, DoHandleWriteHttpResponse, DoHandleSendHttpRequest,
        DoHandleReadHttpResponse, Keeps;
      match ev
      case OnTransportInit(e, requestOk) => HandleTransportReady(e, requestOk);
      case OnReadHandshake(e, request) => HandleHandshakeRead(e, request);
      case OnWriteHttpResponse(e, calls, frames) => HandleResponseWritten(e, calls, frames);
      case OnSendHttpRequest(e) => HandleRequestSent(e);
      case OnReadHttpResponse(e, response, calls, frames) => HandleResponseRead(e, response, calls, frames);
    }

    method HandleEvent(ev: Event)
      requires ev.OnWriteFrame? ==> currentMsgs != []
      modifies this
      ensures View() == Deliver(old(View()), ev)
    {
      hide Call, DoStart, DoHandleTransportInit, DoHandleReadHandshake, DoHandleWriteHttpResponse,
        DoHandleSendHttpRequest, DoHandleReadHttpResponse, DoHandleReadFrame, DoWriteFrame, DoHandleWriteFrame,
        DoHandleTerminate, DoTimeout, Keeps, Completed;
      match ev
      case User(call) => Perform(call);
      case Start => Begin();
      case OnReadFrame(e, frames) => HandleReadFrame(e, frames);
      case OnDispatchedWrite => WriteFrame();
      case OnWriteFrame(e) => HandleWriteFrame(e);
      case OnTerminate(status, calls) => HandleTerminated(status, calls);
      case OnOpenTimer(e) => HandleTimeout(e);
      case OnCloseTimer(e) => HandleTimeout(e);
      case _ => HandleHandshakeEvent(ev);
    }

    method UseUp(ev: Event)
      modifies `pending
      ensures View() == Consume(old(View()), ev)
    {
      pending := pending - Consumes(ev);
    }

    /** One step of a run: an owed callback is used up and its handler runs. */
    method Take(ev: Event)
      requires Enabled(View(), ev)
      modifies this
      ensures View() == Apply(old(View()), ev)
      ensures old(Sound(View())) ==> Sound(View()) && old(history) <= history && old(pushed) <= pushed
      ensures old(Sound(View()) && Lifecycle.Inv(View())) ==>
        (Lifecycle.Inv(View()) <==> !Lifecycle.NegotiationFails(old(View()), ev))
    {
      hide Deliver, WritePump.Inv, Silence.Quiet, Lifecycle.Inv, Lifecycle.NegotiationFails;
      ghost var before := View();
      UseUp(ev);
      hide Consume;
      HandleEvent(ev);
      if Sound(before) {
        WritePump.ApplyKeeps(before, ev);
        Silence.ApplyStep(before, ev, false);
        if Lifecycle.Inv(before) {
          Lifecycle.EventKeepsInvariant(before, ev);
        }
      }
    }
  }
}
