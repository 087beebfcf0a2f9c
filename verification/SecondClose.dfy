/**
 * A second close frame, on a concrete run: a client closes from its open
 * handler, and the bytes that came with the handshake response hold a malformed
 * close frame, which is answered although the connection is closing already.
 */
module SecondClose {
  import opened NegotiationBreach
  import opened SessionModel
  import Silence

  const CALLS: seq<UserCall> := [CloseCall(1000, "", true)]
  const FRAMES: seq<Frame> := [CloseFrame(false, "", true)]
  const OPENING: Event := OnReadHttpResponse(NoError, ValidHandshake(true), CALLS, FRAMES)
  const FIRST := Msg(Close, "", false)

  /** The run: connect, send the request, and read the response with both in it. */
  function TwoCloses(): seq<Event> {
    [Start] + ([OnTransportInit(NoError, true)] + ([OnSendHttpRequest(NoError)] + ([OPENING] + [])))
  }

  lemma Opens(c: Conn)
    requires CheckHandshake(c, NoError, ReadHttpResponse) == Proceed
    ensures Deliver(c, OPENING) == ProcessFrames(RunCalls(Opened(c), CALLS), FRAMES)
  {
    hide ProcessFrames, RunCalls;
    CallsKeepIState(Opened(c));
  }

  lemma CallsKeepIState(c: Conn)
    ensures RunCalls(c, CALLS) == Call(c, CALLS[0]) && RunCalls(c, CALLS).istate == c.istate
  {
    assert CALLS[1..] == [];
  }

  lemma ClosesFromHandler(c: Conn)
    requires c.state == Open
    ensures var d := RunCalls(c, CALLS);
      d.state == Closing && d.pump.pushed == c.pump.pushed + [FIRST] && d.dropOnProtocolError == c.dropOnProtocolError
    ensures RunCalls(c, CALLS).isServer == c.isServer
  {
    CallsKeepIState(c);
  }

  lemma AnswersMalformed(c: Conn)
    requires c.state == Closing && !c.dropOnProtocolError && !c.isServer
    ensures ProcessFrames(c, FRAMES).pump.pushed == c.pump.pushed + [FIRST]
  {
    hide Terminate, SessionModel.SendCloseFrame;
    assert FRAMES[1..] == [];
    assert ProcessFrames(c, FRAMES) == Post(SendCloseFrame(c, "", true, false, true), HandleReadFrame);
    Answers(c);
  }

  lemma Answers(c: Conn)
    ensures SendCloseFrame(c, "", true, false, true).pump.pushed == c.pump.pushed + [FIRST]
  {
  }

  lemma Responds()
    ensures Enabled(REQUESTED, OPENING)
    ensures Apply(REQUESTED, OPENING).pump.pushed == [FIRST, FIRST]
  {
    hide ProcessFrames, RunCalls, Deliver;
    var c := Consume(REQUESTED, OPENING);
    Opens(c);
    ClosesFromHandler(Opened(c));
    AnswersMalformed(RunCalls(Opened(c), CALLS));
  }

  /** Two close frames are pushed, by the event that the condition names. */
  lemma TwoCloseFrames()
    ensures IsRun(Fresh(false, false), TwoCloses())
    ensures After(Fresh(false, false), TwoCloses()).pump.pushed == [FIRST, FIRST]
    ensures Silence.PushesSecondCloseIn(Fresh(false, false), TwoCloses())
  {
    hide Apply, Enabled, Fresh, Silence.PushesSecondCloseIn;
    Starts();
    Connects();
    Requests();
    Responds();
    FirstAndLast();
    RunStep(REQUESTED, OPENING, []);
    RunStep(CONNECTED, OnSendHttpRequest(NoError), [OPENING] + []);
    RunStep(STARTED, OnTransportInit(NoError, true), [OnSendHttpRequest(NoError)] + ([OPENING] + []));
    RunStep(NEW, Start, [OnTransportInit(NoError, true)] + ([OnSendHttpRequest(NoError)] + ([OPENING] + [])));
    Silence.OneCloseFrameExactly(false, false, TwoCloses());
    assert [FIRST, FIRST][0].kind == Close;
  }
}
