/**
 * Two stalls on concrete runs of a client, after which the transport owes
 * nothing: one whose request cannot be prepared is left connecting with no
 * handler called, and one that answers a processor error with a close frame is
 * left closing with its open handler called and its close handler never.
 */
module StalledRuns {
  import Liveness
  import opened NegotiationBreach
  import opened SessionModel
  import WritePump

  // ----- A request that cannot be prepared -----

  const UNPREPARED: Event := OnTransportInit(NoError, false)

  const STALLED := NEW.(istate := WriteHttpRequest)

  function NeverSends(): seq<Event> {
    [Start] + ([UNPREPARED] + [])
  }

  lemma SendsNothing()
    ensures Enabled(STARTED, UNPREPARED) && Apply(STARTED, UNPREPARED) == STALLED
  {
    hide Terminate;
  }

  lemma StalledState()
    ensures STALLED.state == Connecting && STALLED.istate == WriteHttpRequest
    ensures STALLED.pending == multiset{} && STALLED.tally == Tally(0, 0, 0, 0, 0)
  {
  }

  /** Neither the open nor the fail handler is ever called. */
  lemma RequestNeverSent()
    ensures IsRun(Fresh(false, false), NeverSends())
    ensures var c := After(Fresh(false, false), NeverSends());
      c.state == Connecting && c.pending == multiset{} && c.tally == Tally(0, 0, 0, 0, 0)
    ensures Liveness.StallsIn(Fresh(false, false), NeverSends(), Liveness.Unprepared)
  {
    hide Apply, Enabled, Fresh, Liveness.StallsIn;
    Starts();
    SendsNothing();
    FirstAndLast();
    StalledState();
    RunStep(STARTED, UNPREPARED, []);
    RunStep(NEW, Start, [UNPREPARED] + []);
    StallIs(NeverSends(), Liveness.Unprepared);
  }

  /** A run that leaves nothing owed and the connection not closed stalled in the way its last state shows. */
  lemma StallIs(evs: seq<Event>, k: Liveness.Stall)
    requires IsRun(Fresh(false, false), evs) && Start in evs
    requires var c := After(Fresh(false, false), evs);
      && c.pending == multiset{}
      && match k
         case Unprepared => c.state == Connecting && c.istate == WriteHttpRequest
         case Deferred => c.state == Connecting && c.istate == ProcessHttpRequest
         case Unread => c.state == Closing
    ensures Liveness.StallsIn(Fresh(false, false), evs, k)
  {
    hide IsRun, After, Liveness.StallsIn;
    Liveness.FreshCarried(false, false);
    Liveness.RunGoes(Fresh(false, false), evs, false);
    Liveness.ClosesUnlessStalled(false, false, evs);
    var j :| Liveness.StallsIn(Fresh(false, false), evs, j);
  }

  // ----- Reading given up -----

  const FAILED_READ: Event := OnReadHttpResponse(NoError, ValidHandshake(true), [], [ConsumeError(0, "", true)])
  const GOODBYE := Msg(Close, "", false)

  const TIMERS: multiset<Callback> := multiset{CloseTimer} + multiset{OpenTimer}

  const CLOSING := NEW.(
    istate := ProcessConnection, state := Closing, history := [Connecting, Open, Closing],
    tally := Tally(1, 0, 0, 0, 0), pump := Pump([GOODBYE], [], false, 0, [GOODBYE], []),
    pending := TIMERS + multiset{WriteFrame})

  const WRITING := CLOSING.(
    pump := Pump([], [GOODBYE], true, 0, [GOODBYE], [GOODBYE]),
    pending := TIMERS + multiset{HandleWriteFrame})

  const WRITTEN := CLOSING.(
    pump := Pump([], [], false, 0, [GOODBYE], [GOODBYE]), pending := TIMERS)

  const OPEN_ENDS: Event := OnOpenTimer(OtherError)
  const CLOSE_ENDS: Event := OnCloseTimer(OtherError)

  const WAITING := WRITTEN.(pending := multiset{CloseTimer})

  const UNREAD := WRITTEN.(pending := multiset{})

  lemma OpensAndErrs()
    ensures Enabled(REQUESTED, FAILED_READ) && Apply(REQUESTED, FAILED_READ) == CLOSING
  {
    hide Deliver, Enabled;
    var c := Consume(REQUESTED, FAILED_READ);
    assert Enabled(REQUESTED, FAILED_READ) by { AwaitsResponse(); }
    assert c == REQUESTED.(pending := multiset{OpenTimer});
    hide Consume;
    Opens(c);
    Closes(c);
  }

  lemma AwaitsResponse()
    ensures Enabled(REQUESTED, FAILED_READ)
  {
  }

  lemma Opens(c: Conn)
    requires c.state == Connecting && c.istate == ReadHttpResponse && !c.dropOnProtocolError
    ensures Deliver(c, FAILED_READ) == PushAndWake(BeginClosing(Opened(c), false), GOODBYE)
  {
    hide Terminate, PushAndWake, BeginClosing;
  }

  lemma Closes(c: Conn)
    requires c == REQUESTED.(pending := multiset{OpenTimer})
    ensures PushAndWake(BeginClosing(Opened(c), false), GOODBYE) == CLOSING
  {
  }

  // The three kinds of step that follow, each on any connection in the state it needs

  lemma Dispatches(c: Conn, rest: multiset<Callback>, m: Msg)
    requires c.pending == rest + multiset{WriteFrame}
    requires c.pump == Pump([m], [], false, |m.payload|, [m], []) && !m.terminal
    ensures Enabled(c, OnDispatchedWrite)
    ensures Apply(c, OnDispatchedWrite) == c.(
      pump := Pump([], [m], true, 0, [m], [m]), pending := rest + multiset{HandleWriteFrame})
  {
    hide Deliver, DoWriteFrame;
    var d := Consume(c, OnDispatchedWrite);
    assert d == c.(pending := rest);
    hide Consume;
    WritePump.DeliverWrites(d, OnDispatchedWrite);
    HandsOver(d, m);
  }

  lemma HandsOver(c: Conn, m: Msg)
    requires c.pump == Pump([m], [], false, |m.payload|, [m], []) && !m.terminal
    ensures DoWriteFrame(c) == c.(
      pump := Pump([], [m], true, 0, [m], [m]), pending := c.pending + multiset{HandleWriteFrame})
  {
    TakesOne(c.pump, m);
    hide Pop;
  }

  lemma TakesOne(p: Pump, m: Msg)
    requires p == Pump([m], [], false, |m.payload|, [m], []) && !m.terminal
    ensures Pop(p) == Pump([], [m], false, 0, [m], [])
  {
    assert [m][..1] == [m] && [m][1..] == [];
    assert TotalSize([m]) == |m.payload|;
  }

  lemma Completes(c: Conn, rest: multiset<Callback>, m: Msg)
    requires c.pending == rest + multiset{HandleWriteFrame}
    requires c.pump == Pump([], [m], true, 0, [m], [m]) && !m.terminal
    ensures Enabled(c, OnWriteFrame(NoError))
    ensures Apply(c, OnWriteFrame(NoError)) == c.(pump := Pump([], [], false, 0, [m], [m]), pending := rest)
  {
    hide Deliver, Terminate;
    var d := Consume(c, OnWriteFrame(NoError));
    assert d == c.(pending := rest);
    hide Consume;
    WritePump.DeliverWrites(d, OnWriteFrame(NoError));
  }

  lemma TimerEnds(c: Conn, rest: multiset<Callback>, ev: Event)
    requires (ev.OnOpenTimer? || ev.OnCloseTimer?) && ev.e != NoError && c.pending == rest + Consumes(ev)
    ensures Enabled(c, ev) && Apply(c, ev) == c.(pending := rest)
  {
    hide Terminate;
    var d := Consume(c, ev);
    assert d == c.(pending := rest);
    hide Consume, Consumes;
  }

  function WriteAndWait(): seq<Event> {
    [OnDispatchedWrite] + ([OnWriteFrame(NoError)] + ([OPEN_ENDS] + ([CLOSE_ENDS] + [])))
  }

  function GivesUpReading(): seq<Event> {
    [Start] + ([OnTransportInit(NoError, true)] + ([OnSendHttpRequest(NoError)] + ([FAILED_READ] + WriteAndWait())))
  }

  lemma WritesAndWaits()
    ensures IsRun(CLOSING, WriteAndWait()) && After(CLOSING, WriteAndWait()) == UNREAD
  {
    hide Apply, Enabled;
    Dispatches(CLOSING, TIMERS, GOODBYE);
    Completes(WRITING, TIMERS, GOODBYE);
    TimerEnds(WRITTEN, multiset{CloseTimer}, OPEN_ENDS);
    TimerEnds(WAITING, multiset{}, CLOSE_ENDS);
    RunStep(WAITING, CLOSE_ENDS, []);
    RunStep(WRITTEN, OPEN_ENDS, [CLOSE_ENDS] + []);
    RunStep(WRITING, OnWriteFrame(NoError), [OPEN_ENDS] + ([CLOSE_ENDS] + []));
    RunStep(CLOSING, OnDispatchedWrite, [OnWriteFrame(NoError)] + ([OPEN_ENDS] + ([CLOSE_ENDS] + [])));
  }

  lemma UnreadState()
    ensures UNREAD.state == Closing && UNREAD.pending == multiset{} && UNREAD.tally == Tally(1, 0, 0, 0, 0)
  {
  }

  /** The open handler is called and the close handler never is. */
  lemma NeverReadsAgain()
    ensures IsRun(Fresh(false, false), GivesUpReading())
    ensures var c := After(Fresh(false, false), GivesUpReading());
      c.state == Closing && c.pending == multiset{} && c.tally == Tally(1, 0, 0, 0, 0)
    ensures Liveness.StallsIn(Fresh(false, false), GivesUpReading(), Liveness.Unread)
  {
    hide Apply, Enabled, Fresh, WriteAndWait, Liveness.StallsIn;
    Starts();
    Connects();
    Requests();
    OpensAndErrs();
    WritesAndWaits();
    FirstAndLast();
    UnreadState();
    var e4 := [FAILED_READ] + WriteAndWait();
    RunStep(REQUESTED, FAILED_READ, WriteAndWait());
    RunStep(CONNECTED, OnSendHttpRequest(NoError), e4);
    RunStep(STARTED, OnTransportInit(NoError, true), [OnSendHttpRequest(NoError)] + e4);
    RunStep(NEW, Start, [OnTransportInit(NoError, true)] + ([OnSendHttpRequest(NoError)] + e4));
    StallIs(GivesUpReading(), Liveness.Unread);
  }
}
