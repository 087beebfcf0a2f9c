/**
 * The open and the fail handler both called, on a concrete run: a client whose
 * extension negotiation fails, which is left in the open state with its
 * transport shut down.
 */
module NegotiationBreach {
  import opened SessionModel

  const RESPONSE: Event := OnReadHttpResponse(NoError, ValidHandshake(false), [], [])

  // The client after each event of the run

  const NEW := Fresh(false, false)

  const STARTED := NEW.(istate := TransportInit, pending := multiset{HandleTransportInit})

  const CONNECTED := NEW.(istate := WriteHttpRequest, pending := multiset{OpenTimer, HandleSendHttpRequest})

  const REQUESTED := NEW.(istate := ReadHttpResponse, pending := multiset{OpenTimer, HandleReadHttpResponse})

  const REOPENED := NEW.(
    istate := ProcessConnection, state := Open, history := [Connecting, Closed, Open], ec := OtherError,
    tally := Tally(1, 0, 0, 1, 0), pending := multiset{OpenTimer, HandleTerminate(Failed), HandleReadFrame})

  const FAILED := REOPENED.(tally := Tally(1, 1, 0, 1, 1), pending := multiset{OpenTimer, HandleReadFrame})

  lemma Starts()
    ensures Enabled(NEW, Start) && Apply(NEW, Start) == STARTED
  {
    hide Terminate;
  }

  lemma Connects()
    ensures Enabled(STARTED, OnTransportInit(NoError, true))
    ensures Apply(STARTED, OnTransportInit(NoError, true)) == CONNECTED
  {
    hide Terminate;
  }

  lemma Requests()
    ensures Enabled(CONNECTED, OnSendHttpRequest(NoError))
    ensures Apply(CONNECTED, OnSendHttpRequest(NoError)) == REQUESTED
  {
    hide Deliver, Consume;
    RequestSent(CONNECTED);
    AwaitsResponse(CONNECTED.(pending := multiset{OpenTimer}));
  }

  lemma RequestSent(c: Conn)
    requires c.pending == multiset{OpenTimer, HandleSendHttpRequest}
    ensures Consume(c, OnSendHttpRequest(NoError)) == c.(pending := multiset{OpenTimer})
  {
  }

  lemma AwaitsResponse(c: Conn)
    requires c.state == Connecting && c.istate == WriteHttpRequest
    ensures Deliver(c, OnSendHttpRequest(NoError)) ==
      c.(istate := ReadHttpResponse, pending := c.pending + multiset{HandleReadHttpResponse})
  {
    hide Terminate;
  }

  lemma OpensAfterTerminating()
    ensures Enabled(REQUESTED, RESPONSE) && Apply(REQUESTED, RESPONSE) == REOPENED
  {
    hide DoHandleReadHttpResponse;
    Opens();
  }

  lemma Opens()
    ensures DoHandleReadHttpResponse(Consume(REQUESTED, RESPONSE), NoError, ValidHandshake(false), [], []) == REOPENED
  {
    hide BecomeOpen, Terminate;
    var c := Consume(REQUESTED, RESPONSE);
    var t := c.(state := Closed, history := [Connecting, Closed], ec := OtherError, tally := Tally(0, 0, 0, 1, 0),
                pending := multiset{OpenTimer, HandleTerminate(Failed)});
    assert Terminate(c, OtherError) == t by { Terminates(c); }
    assert BecomeOpen(t, [], []) == REOPENED by { Reopens(t); }
  }

  lemma Terminates(c: Conn)
    requires c.state == Connecting && c.pending == multiset{OpenTimer} && c.tally == Tally(0, 0, 0, 0, 0)
    ensures Terminate(c, OtherError) == c.(state := Closed, history := c.history + [Closed], ec := OtherError,
                                           tally := Tally(0, 0, 0, 1, 0),
                                           pending := multiset{OpenTimer, HandleTerminate(Failed)})
  {
  }

  lemma Reopens(t: Conn)
    requires t.pending == multiset{OpenTimer, HandleTerminate(Failed)} && t.tally == Tally(0, 0, 0, 1, 0)
    ensures BecomeOpen(t, [], []) == t.(istate := ProcessConnection, state := Open, history := t.history + [Open],
                                        tally := Tally(1, 0, 0, 1, 0),
                                        pending := multiset{OpenTimer, HandleTerminate(Failed), HandleReadFrame})
  {
    hide Terminate;
  }

  lemma Fails()
    ensures Enabled(REOPENED, OnTerminate(Failed, [])) && Apply(REOPENED, OnTerminate(Failed, [])) == FAILED
  {
    hide Deliver, DoHandleTerminate;
    var c := REOPENED.(pending := multiset{OpenTimer, HandleReadFrame});
    assert Consume(REOPENED, OnTerminate(Failed, [])) == c;
    FailHandlerFires(c);
  }

  lemma FailHandlerFires(c: Conn)
    requires c.ec == OtherError && c.tally == Tally(1, 0, 0, 1, 0)
    ensures Deliver(c, OnTerminate(Failed, [])) == c.(tally := Tally(1, 1, 0, 1, 1))
  {
    hide Call;
  }

  lemma RunStep(c: Conn, ev: Event, rest: seq<Event>)
    ensures IsRun(c, [ev] + rest) <==> Enabled(c, ev) && IsRun(Apply(c, ev), rest)
    ensures IsRun(c, [ev] + rest) ==> After(c, [ev] + rest) == After(Apply(c, ev), rest)
  {
    hide Enabled, Apply;
    assert ([ev] + rest)[1..] == rest;
  }

  function Breach(): seq<Event> {
    [Start] + ([OnTransportInit(NoError, true)] +
      ([OnSendHttpRequest(NoError)] + ([RESPONSE] + ([OnTerminate(Failed, [])] + []))))
  }

  lemma FirstAndLast()
    ensures NEW == Fresh(false, false)
    ensures FAILED.tally == Tally(1, 1, 0, 1, 1) && FAILED.state == Open
  {
  }

  /** Both handlers fire, and the connection ends up open after its transport was shut down. */
  lemma BothHandlersFire()
    ensures IsRun(Fresh(false, false), Breach())
    ensures var c := After(Fresh(false, false), Breach());
      c.tally.opens == 1 && c.tally.fails == 1 && c.state == Open && c.tally.shutdowns == 1
  {
    hide Apply, Enabled, Fresh;
    Starts();
    Connects();
    Requests();
    OpensAfterTerminating();
    Fails();
    FirstAndLast();
    var e4 := [OnTerminate(Failed, [])] + [];
    RunStep(REOPENED, OnTerminate(Failed, []), []);
    RunStep(REQUESTED, RESPONSE, e4);
    RunStep(CONNECTED, OnSendHttpRequest(NoError), [RESPONSE] + e4);
    RunStep(STARTED, OnTransportInit(NoError, true), [OnSendHttpRequest(NoError)] + ([RESPONSE] + e4));
    RunStep(NEW, Start, [OnTransportInit(NoError, true)] + ([OnSendHttpRequest(NoError)] + ([RESPONSE] + e4)));
  }
}
