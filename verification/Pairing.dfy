/**
 * What every sequence of connections and messages leads to: clients are paired
 * in the order they came, and an update reaches the other member of its room.
 */
module Pairing {
  import opened Matchmaking
  import opened Wrappers

  datatype Event = Connection(socket: int) | Received(message: Message)

  function Step(clock: Clock, s: State, e: Event): State {
    match e
    case Connection(socket) => Connect(clock, s, socket)
    case Received(m) => Receive(s, m)
  }

  function Run(clock: Clock, events: seq<Event>): State {
    if events == [] then EMPTY else Step(clock, Run(clock, events[..|events| - 1]), events[|events| - 1])
  }

  /** The sockets of the connections in the order they came. */
  function Sockets(events: seq<Event>): seq<int> {
    if events == [] then []
    else
      var before := Sockets(events[..|events| - 1]);
      match events[|events| - 1]
      case Connection(socket) => before + [socket]
      case Received(_) => before
  }

  /**
   * n clients make n / 2 rooms; room k joins clients 2k and 2k + 1; everyone
   * plays but the last of an odd number. The clock is read once for each
   * client and each room, in the order they come to be.
   */
  predicate Paired(clock: Clock, s: State) {
    var n := |s.players|;
    && |s.rooms| == n / 2
    && s.readings == n + n / 2
    && (forall i | 0 <= i < n :: s.players[i].id == clock(i + i / 2))
    && (forall i | 0 <= i < n :: s.players[i].kind == if i / 2 < n / 2 then Playing else Undefined)
    && (forall k | 0 <= k < n / 2 :: s.rooms[k] == Room(clock(3 * k + 2), s.players[2 * k].id, s.players[2 * k + 1].id))
  }

  /** Clients already playing are passed over. */
  lemma {:induction false} PassOver(clock: Clock, s: State, i: nat, j: nat)
    requires i <= j <= |s.players| && forall x | i <= x < j :: s.players[x].kind == Playing
    ensures MakeRooms(clock, s, i) == MakeRooms(clock, s, j)
    decreases j - i
  {
    if i < j {
      PassOver(clock, s, i + 1, j);
    }
  }

  lemma Halves(n: nat)
    ensures n % 2 == 0 ==> (n + 1) / 2 == n / 2 && n / 2 * 2 == n
    ensures n % 2 == 1 ==> (n + 1) / 2 == n / 2 + 1 && n / 2 * 2 == n - 1
  {
  }

  /** A client that comes when all others play waits. */
  lemma EvenJoin(clock: Clock, s: State, socket: int)
    requires Paired(clock, s) && |s.players| % 2 == 0
    ensures Connect(clock, s, socket) == Join(clock, s, socket) && Paired(clock, Join(clock, s, socket))
  {
    var n := |s.players|;
    var t := Join(clock, s, socket);
    Halves(n);
    forall i | 0 <= i < n
      ensures t.players[i] == s.players[i] && i / 2 < n / 2
    {
    }
    PassOver(clock, t, 0, n);
    hide Join;
    assert MakeRooms(clock, t, n) == MakeRooms(clock, t, n + 1);
  }

  /** A client that comes when one is waiting makes a room with it. */
  lemma OddJoin(clock: Clock, s: State, socket: int)
    requires Paired(clock, s) && |s.players| % 2 == 1
    ensures var n := |s.players|;
      Connect(clock, s, socket) == MakeRoom(clock, Join(clock, s, socket), n - 1, n)
  {
    var n := |s.players|;
    var t := Join(clock, s, socket);
    Halves(n);
    forall i | 0 <= i < n
      ensures t.players[i] == s.players[i] && (i < n - 1 ==> i / 2 < n / 2)
    {
    }
    assert (n - 1) / 2 == n / 2;
    PassOver(clock, t, 0, n - 1);
    var u := MakeRoom(clock, t, n - 1, n);
    assert MakeRooms(clock, t, n - 1) == MakeRooms(clock, u, n);
    PassOver(clock, u, n, n + 1);
    assert MakeRooms(clock, u, n + 1) == u;
  }

  lemma OddPaired(clock: Clock, s: State, socket: int)
    requires Paired(clock, s) && |s.players| % 2 == 1
    ensures Paired(clock, MakeRoom(clock, Join(clock, s, socket), |s.players| - 1, |s.players|))
  {
    var n := |s.players|;
    Halves(n);
    var u := MakeRoom(clock, Join(clock, s, socket), n - 1, n);
    assert u.readings == n + n / 2 + 2 == (n + 1) + (n + 1) / 2;
    forall i | 0 <= i < n + 1
      ensures u.players[i].id == clock(i + i / 2)
      ensures u.players[i].kind == if i / 2 < (n + 1) / 2 then Playing else Undefined
    {
      if i < n - 1 {
        assert u.players[i] == s.players[i] && i / 2 < n / 2;
      }
    }
    forall k | 0 <= k < (n + 1) / 2
      ensures u.rooms[k] == Room(clock(3 * k + 2), u.players[2 * k].id, u.players[2 * k + 1].id)
    {
      if k < n / 2 {
        assert u.rooms[k] == s.rooms[k] && 2 * k + 1 < n - 1;
      } else {
        assert 2 * k == n - 1 && 3 * k + 2 == n + n / 2 + 1;
      }
    }
  }

  lemma StepSockets(clock: Clock, s: State, e: Event)
    requires Paired(clock, s)
    ensures Paired(clock, Step(clock, s, e))
    ensures var t := Step(clock, s, e);
      && |t.players| == |s.players| + (if e.Connection? then 1 else 0)
      && (forall i | 0 <= i < |s.players| :: t.players[i].socket == s.players[i].socket)
      && (e.Connection? ==> t.players[|s.players|].socket == e.socket)
  {
    match e
    case Connection(socket) =>
      if |s.players| % 2 == 0 {
        EvenJoin(clock, s, socket);
      } else {
        OddJoin(clock, s, socket);
        OddPaired(clock, s, socket);
      }
    case Received(m) =>
  }

  /** After every sequence of connections and messages the clients are paired in the order they came. */
  lemma {:induction false} AlwaysPaired(clock: Clock, events: seq<Event>)
    ensures var s := Run(clock, events);
      && Paired(clock, s)
      && |s.players| == |Sockets(events)|
      && (forall i | 0 <= i < |s.players| :: s.players[i].socket == Sockets(events)[i])
    decreases |events|
  {
    hide Paired, Step;
    if events == [] {
      NobodyIsPaired(clock);
    } else {
      var before := events[..|events| - 1];
      AlwaysPaired(clock, before);
      StepSockets(clock, Run(clock, before), events[|events| - 1]);
    }
  }

  lemma NobodyIsPaired(clock: Clock)
    ensures Paired(clock, EMPTY)
  {
  }

  // ----- What the clients are told -----

  /** What was sent apart from forwarded updates. */
  function Notices(sent: seq<Sent>): seq<Sent> {
    if sent == [] then []
    else (if sent[0].notice.Forward? then [] else [sent[0]]) + Notices(sent[1..])
  }

  /**
   * Client i is told its id, and once it has a partner both are told their
   * room: in order, clients 2k and 2k + 1 their ids, then both the room k.
   */
  predicate Announced(s: State) {
    var q, n := Notices(s.sent), |s.players|;
    && |s.rooms| == n / 2
    && |q| == n + 2 * (n / 2)
    && (forall i | 0 <= i < n :: q[i + 2 * (i / 2)] == Sent(s.players[i].socket, SetId(s.players[i].id)))
    && (forall k | 0 <= k < n / 2 ::
          && q[4 * k + 2] == Sent(s.players[2 * k].socket, SetRoom(s.rooms[k]))
          && q[4 * k + 3] == Sent(s.players[2 * k + 1].socket, SetRoom(s.rooms[k])))
  }

  lemma {:induction false} NoticesAppend(p: seq<Sent>, q: seq<Sent>)
    ensures Notices(p + q) == Notices(p) + Notices(q)
  {
    if p == [] {
      assert p + q == q;
    } else {
      assert (p + q)[1..] == p[1..] + q;
      NoticesAppend(p[1..], q);
    }
  }

  lemma {:induction false} NoNotices(s: State, places: seq<nat>, m: Message)
    ensures Notices(Forwards(s, places, m)) == []
    decreases |places|
  {
    if places != [] && places[0] < |s.players| {
      NoNotices(s, places[1..], m);
      assert Forwards(s, places, m)[1..] == Forwards(s, places[1..], m);
    }
  }

  lemma OneNotice(n: Sent)
    requires !n.notice.Forward?
    ensures Notices([n]) == [n]
  {
    assert [n][1..] == [];
  }

  lemma TwoNotices(m: Sent, n: Sent)
    requires !m.notice.Forward? && !n.notice.Forward?
    ensures Notices([m, n]) == [m, n]
  {
    OneNotice(m);
    OneNotice(n);
    NoticesAppend([m], [n]);
    assert [m] + [n] == [m, n];
  }

  lemma AnnounceFirst(clock: Clock, s: State, socket: int)
    requires Announced(s) && |s.players| % 2 == 0
    ensures Announced(Join(clock, s, socket))
  {
    hide Notices;
    var n, t := |s.players|, Join(clock, s, socket);
    var told := Sent(socket, SetId(clock(s.readings)));
    Halves(n);
    OneNotice(told);
    NoticesAppend(s.sent, [told]);
    forall i | 0 <= i < n + 1
      ensures Notices(t.sent)[i + 2 * (i / 2)] == Sent(t.players[i].socket, SetId(t.players[i].id))
    {
      if i < n {
        assert t.players[i] == s.players[i] && i + 2 * (i / 2) < |Notices(s.sent)| by { Within(i, n); }
      }
    }
    forall k | 0 <= k < n / 2
      ensures Notices(t.sent)[4 * k + 2] == Notices(s.sent)[4 * k + 2]
      ensures Notices(t.sent)[4 * k + 3] == Notices(s.sent)[4 * k + 3]
    {
    }
  }

  lemma Within(i: nat, n: nat)
    requires i < n
    ensures i + 2 * (i / 2) < n + 2 * (n / 2)
  {
  }

  lemma AnnounceSecond(clock: Clock, s: State, socket: int)
    requires Announced(s) && |s.players| % 2 == 1
    ensures Announced(MakeRoom(clock, Join(clock, s, socket), |s.players| - 1, |s.players|))
  {
    hide Notices;
    var n, t := |s.players|, Join(clock, s, socket);
    var u := MakeRoom(clock, t, n - 1, n);
    var told, room := Sent(socket, SetId(clock(s.readings))), u.rooms[n / 2];
    var left, right := Sent(t.players[n - 1].socket, SetRoom(room)), Sent(t.players[n].socket, SetRoom(room));
    Halves(n);
    OneNotice(told);
    TwoNotices(left, right);
    NoticesAppend(s.sent, [told]);
    NoticesAppend(t.sent, [left, right]);
    var q := Notices(s.sent);
    assert Notices(u.sent) == q + [told] + [left, right];
    forall i | 0 <= i < n + 1
      ensures Notices(u.sent)[i + 2 * (i / 2)] == Sent(u.players[i].socket, SetId(u.players[i].id))
    {
      if i < n {
        assert u.players[i].id == s.players[i].id && u.players[i].socket == s.players[i].socket;
        assert i + 2 * (i / 2) < |q| by { Within(i, n); }
      } else {
        assert i + 2 * (i / 2) == |q|;
      }
    }
    forall k | 0 <= k < (n + 1) / 2
      ensures Notices(u.sent)[4 * k + 2] == Sent(u.players[2 * k].socket, SetRoom(u.rooms[k]))
      ensures Notices(u.sent)[4 * k + 3] == Sent(u.players[2 * k + 1].socket, SetRoom(u.rooms[k]))
    {
      if k < n / 2 {
        assert 4 * k + 3 < |q| && u.rooms[k] == s.rooms[k];
      } else {
        assert 2 * k == n - 1 && 4 * k + 2 == |q| + 1;
      }
    }
  }

  lemma StepAnnounces(clock: Clock, s: State, e: Event)
    requires Paired(clock, s) && Announced(s)
    ensures Announced(Step(clock, s, e))
  {
    hide Notices, Join, MakeRoom, Forwards, Recipients, Paired, Announced;
    match e
    case Connection(socket) =>
      if |s.players| % 2 == 0 {
        EvenJoin(clock, s, socket);
        AnnounceFirst(clock, s, socket);
      } else {
        OddJoin(clock, s, socket);
        AnnounceSecond(clock, s, socket);
      }
    case Received(m) =>
      var places := Recipients(s, s.rooms, m);
      NoNotices(s, places, m);
      NoticesAppend(s.sent, Forwards(s, places, m));
      SameNotices(s, Receive(s, m));
  }

  lemma SameNotices(s: State, t: State)
    requires Announced(s) && t.players == s.players && t.rooms == s.rooms && Notices(t.sent) == Notices(s.sent) + []
    ensures Announced(t)
  {
    hide Notices;
  }

  /**
   * In every run, apart from forwarded updates, each client is sent its own id
   * once and, when it has a partner, then its room once, and nothing else is
   * sent.
   */
  lemma {:induction false} EveryoneIsTold(clock: Clock, events: seq<Event>)
    ensures Announced(Run(clock, events))
    decreases |events|
  {
    hide Announced, Paired, Step;
    if events == [] {
      NothingToTell();
    } else {
      var before := events[..|events| - 1];
      EveryoneIsTold(clock, before);
      AlwaysPaired(clock, before);
      StepAnnounces(clock, Run(clock, before), events[|events| - 1]);
    }
  }

  lemma NothingToTell()
    ensures Announced(EMPTY)
  {
  }

  /** Messages other than updates, and updates that name no room, change nothing. */
  lemma OnlyUpdatesAreForwarded(s: State, m: Message)
    requires !m.update || forall r | 0 <= r < |s.rooms| :: !Names(s.rooms[r], m)
    ensures Receive(s, m) == s
  {
    hide Forwards, Recipients;
    if m.update {
      NoRecipients(s, s.rooms, m);
    } else {
      NoForward(s, s.rooms, m);
    }
    NoForward(s, [], m);
  }

  predicate DistinctIds(players: seq<Player>) {
    forall i, j | 0 <= i < j < |players| :: players[i].id != players[j].id
  }

  predicate IsMember(room: Room, id: int) {
    room.left == id || room.right == id
  }

  /** No client is in two rooms, and only the last one can be in none. */
  lemma InOneRoom(clock: Clock, s: State, i: nat, k: nat)
    requires Paired(clock, s) && DistinctIds(s.players) && i < |s.players| && k < |s.rooms|
    ensures IsMember(s.rooms[k], s.players[i].id) <==> k == i / 2
    ensures i / 2 < |s.rooms| <==> i + 1 < |s.players| || |s.players| % 2 == 0
  {
    Halves(|s.players|);
    Halves(i);
    assert s.rooms[k].left == s.players[2 * k].id && s.rooms[k].right == s.players[2 * k + 1].id;
    assert k == i / 2 <==> i == 2 * k || i == 2 * k + 1;
  }

  // ----- Forwarding -----

  predicate Names(room: Room, m: Message) {
    Some(room.id) == m.roomId
  }

  lemma {:induction false} NoRecipients(s: State, rooms: seq<Room>, m: Message)
    requires m.update
    ensures Recipients(s, rooms, m) == [] <==> forall r | 0 <= r < |rooms| :: !Names(rooms[r], m)
    decreases |rooms|
  {
    hide IndexOf;
    if rooms != [] {
      NoRecipients(s, rooms[1..], m);
      assert forall r | 0 <= r < |rooms| - 1 :: rooms[1..][r] == rooms[r + 1];
      if !Names(rooms[0], m) && Recipients(s, rooms, m) == [] {
        forall r | 0 <= r < |rooms|
          ensures !Names(rooms[r], m)
        {
          assert r > 0 ==> rooms[r] == rooms[1..][r - 1];
        }
      }
    }
  }

  /** One place exactly when one room is named, and then the one it leads to. */
  lemma {:induction false} OneRecipient(s: State, rooms: seq<Room>, m: Message, k: nat)
    requires m.update && k < |rooms| && Names(rooms[k], m)
    ensures |Recipients(s, rooms, m)| == 1 <==> forall r | 0 <= r < |rooms| && r != k :: !Names(rooms[r], m)
    ensures |Recipients(s, rooms, m)| == 1 ==> Recipients(s, rooms, m)[0] == IndexOf(s.players, Target(rooms[k], m))
    decreases |rooms|
  {
    hide IndexOf, Target;
    var rest := rooms[1..];
    assert forall r | 0 < r < |rooms| :: rooms[r] == rest[r - 1];
    if Names(rooms[0], m) {
      NoRecipients(s, rest, m);
      if k > 0 {
        assert Names(rest[k - 1], m);
      } else if |Recipients(s, rooms, m)| == 1 {
        assert Recipients(s, rest, m) == [];
      }
    } else {
      OneRecipient(s, rest, m, k - 1);
      assert Recipients(s, rooms, m) == Recipients(s, rest, m);
    }
  }

  /** The other member of the room of client i. */
  function Partner(i: nat): nat {
    if i % 2 == 0 then i + 1 else i - 1
  }

  function Update(s: State, i: nat): Message
    requires i < |s.players| && i / 2 < |s.rooms|
  {
    Message(true, Some(s.rooms[i / 2].id), Some(s.players[i].id))
  }

  /**
   * An update from a member of a room is forwarded once, to the other member,
   * exactly when no other room has the same id and no client before the other
   * member has its id.
   */
  lemma UpdateReachesPartner(clock: Clock, s: State, i: nat)
    requires Paired(clock, s) && i < |s.players| && i / 2 < |s.rooms|
    ensures
      var k, p := i / 2, Partner(i);
      Recipients(s, s.rooms, Update(s, i)) == [p] <==>
        && (forall r | 0 <= r < |s.rooms| && r != k :: s.rooms[r].id != s.rooms[k].id)
        && p < |s.players| && (forall j | 0 <= j < p :: s.players[j].id != s.players[p].id)
  {
    hide IndexOf, Recipients;
    var k, p, m := i / 2, Partner(i), Update(s, i);
    Halves(|s.players|);
    Halves(i);
    assert 2 * k + 1 < |s.players| && (i == 2 * k || i == 2 * k + 1);
    OneRecipient(s, s.rooms, m, k);
    assert Target(s.rooms[k], m) == s.players[p].id;
    var first := IndexOf(s.players, s.players[p].id);
    assert first == p <==> forall j | 0 <= j < p :: s.players[j].id != s.players[p].id;
    assert forall r | 0 <= r < |s.rooms| :: Names(s.rooms[r], m) <==> s.rooms[r].id == s.rooms[k].id;
  }

  /** So with distinct ids an update is sent once, on the partner's socket, and changes nothing else. */
  lemma UpdateIsForwardedOnce(clock: Clock, s: State, i: nat)
    requires Paired(clock, s) && i < |s.players| && i / 2 < |s.rooms|
    requires DistinctIds(s.players)
    requires forall q, r | 0 <= q < r < |s.rooms| :: s.rooms[q].id != s.rooms[r].id
    ensures Partner(i) < |s.players|
    ensures Receive(s, Update(s, i)) ==
      s.(sent := s.sent + [Sent(s.players[Partner(i)].socket, Forward(Update(s, i)))])
  {
    hide IndexOf, Recipients;
    Halves(|s.players|);
    Halves(i);
    UpdateReachesPartner(clock, s, i);
    OneForward(s, Partner(i), Update(s, i));
  }

  /**
   * Whoever it says it is from, an update that names a room goes once, to the
   * right member if it names the left one as its sender and otherwise to the
   * left member.
   */
  lemma NamedRoomIsServed(clock: Clock, s: State, k: nat, m: Message)
    requires Paired(clock, s) && k < |s.rooms| && DistinctIds(s.players)
    requires forall q, r | 0 <= q < r < |s.rooms| :: s.rooms[q].id != s.rooms[r].id
    requires m.update && m.roomId == Some(s.rooms[k].id)
    ensures 2 * k + 1 < |s.players|
    ensures var p := if m.clientId == Some(s.players[2 * k].id) then 2 * k + 1 else 2 * k;
      Receive(s, m) == s.(sent := s.sent + [Sent(s.players[p].socket, Forward(m))])
  {
    hide Recipients, IndexOf;
    var p := if m.clientId == Some(s.players[2 * k].id) then 2 * k + 1 else 2 * k;
    OneRecipient(s, s.rooms, m, k);
    assert Target(s.rooms[k], m) == s.players[p].id;
    assert forall r | 0 <= r < |s.rooms| && r != k :: !Names(s.rooms[r], m);
    FirstWithId(s.players, p);
    assert Recipients(s, s.rooms, m) == [p];
    OneForward(s, p, m);
  }

  lemma FirstWithId(players: seq<Player>, p: nat)
    requires p < |players| && DistinctIds(players)
    ensures IndexOf(players, players[p].id) == p
  {
    hide IndexOf;
    var i := IndexOf(players, players[p].id);
  }

  /** Every reading of the clock is later than the one before. */
  ghost predicate Ticks(clock: Clock) {
    forall m: nat, n: nat :: m < n ==> clock(m) < clock(n)
  }

  lemma TickingIds(clock: Clock, s: State)
    requires Ticks(clock) && Paired(clock, s)
    ensures DistinctIds(s.players)
    ensures forall q, r | 0 <= q < r < |s.rooms| :: s.rooms[q].id != s.rooms[r].id
  {
    forall i, j | 0 <= i < j < |s.players|
      ensures s.players[i].id != s.players[j].id
    {
      assert clock(i + i / 2) < clock(j + j / 2);
    }
    forall q, r | 0 <= q < r < |s.rooms|
      ensures s.rooms[q].id != s.rooms[r].id
    {
      assert clock(3 * q + 2) < clock(3 * r + 2);
    }
  }

  /** With a clock that ticks between readings, in every run, every member's update reaches its partner exactly once. */
  lemma UpdatesReachPartners(clock: Clock, events: seq<Event>, i: nat)
    requires Ticks(clock)
    ensures var s := Run(clock, events);
      i / 2 < |s.players| / 2 ==>
        && i < |s.players| && i / 2 < |s.rooms| && Partner(i) < |s.players|
        && Step(clock, s, Received(Update(s, i))) ==
          s.(sent := s.sent + [Sent(s.players[Partner(i)].socket, Forward(Update(s, i)))])
  {
    hide Run;
    AlwaysPaired(clock, events);
    var s := Run(clock, events);
    if i / 2 < |s.players| / 2 {
      Halves(|s.players|);
      Halves(i);
      assert i < |s.players| && i / 2 < |s.rooms|;
      TickingIds(clock, s);
      UpdateIsForwardedOnce(clock, s, i);
    }
  }

  lemma OneForward(s: State, p: nat, m: Message)
    requires p < |s.players|
    ensures Forwards(s, [p], m) == [Sent(s.players[p].socket, Forward(m))]
  {
    var places := [p];
    assert places[1..] == [];
  }

  predicate HasClient(players: seq<Player>, id: int) {
    exists i | 0 <= i < |players| :: players[i].id == id
  }

  lemma {:induction false} AllFound(s: State, rooms: seq<Room>, m: Message)
    requires forall r | 0 <= r < |rooms| :: HasClient(s.players, rooms[r].left) && HasClient(s.players, rooms[r].right)
    ensures |s.players| !in Recipients(s, rooms, m)
    decreases |rooms|
  {
    hide IndexOf;
    if rooms != [] && m.update {
      AllFound(s, rooms[1..], m);
      assert HasClient(s.players, Target(rooms[0], m));
    }
  }

  /** Whatever a message says, its rooms lead to clients that are there: on_message never throws. */
  lemma NeverThrows(clock: Clock, s: State, m: Message)
    requires Paired(clock, s)
    ensures |s.players| !in Recipients(s, s.rooms, m)
  {
    hide Recipients;
    forall r | 0 <= r < |s.rooms|
      ensures HasClient(s.players, s.rooms[r].left) && HasClient(s.players, s.rooms[r].right)
    {
      assert s.rooms[r].left == s.players[2 * r].id && s.rooms[r].right == s.players[2 * r + 1].id;
    }
    AllFound(s, s.rooms, m);
  }

  /** Four connections, the last two within the millisecond in which the first room was made. */
  lemma SharedRoomId()
    ensures var clock: Clock := n => if n < 2 then n + 1 else 3;
      var s := Run(clock, [Connection(10), Connection(20), Connection(30), Connection(40)]);
      && |s.players| == 4 && |s.rooms| == 2
      && s.players[0].id != s.players[1].id
      && Recipients(s, s.rooms, Update(s, 0)) == [1, 2]
  {
    hide Run, Recipients, IndexOf;
    var clock: Clock := n => if n < 2 then n + 1 else 3;
    var events := [Connection(10), Connection(20), Connection(30), Connection(40)];
    var s := Run(clock, events);
    AlwaysPaired(clock, events);
    FourSockets(events);
    assert s.rooms[0] == Room(3, 1, 2) && s.rooms[1] == Room(3, 3, 3);
    assert s.players[0].id == 1 && s.players[1].id == 2 && s.players[2].id == 3;
    hide Paired;
    SameRoomTwice(s);
  }

  lemma SameRoomTwice(s: State)
    requires |s.players| == 4 && s.rooms == [Room(3, 1, 2), Room(3, 3, 3)]
    requires s.players[0].id == 1 && s.players[1].id == 2 && s.players[2].id == 3
    ensures Recipients(s, s.rooms, Update(s, 0)) == [1, 2]
  {
    hide Recipients, IndexOf;
    var m := Update(s, 0);
    assert s.rooms[0..] == s.rooms && s.rooms[2..] == [];
    RoomStep(s, 0, m);
    RoomStep(s, 1, m);
    NoForward(s, [], m);
    IndexIsFirst(s.players, 2, 1);
    IndexIsFirst(s.players, 3, 2);
  }

  lemma FourSockets(events: seq<Event>)
    requires events == [Connection(10), Connection(20), Connection(30), Connection(40)]
    ensures Sockets(events) == [10, 20, 30, 40]
  {
    var e3 := events[..3];
    var e2 := e3[..2];
    var e1 := e2[..1];
    assert e1[..0] == [];
    assert Sockets(e1) == [10];
    assert Sockets(e2) == [10, 20];
    assert Sockets(e3) == [10, 20, 30];
  }
}
