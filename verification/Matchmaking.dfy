/**
 * The game server's matchmaking: connections are paired into rooms, and an
 * update sent by one member of a room is forwarded to the other.
 *
 * Identifiers are readings of the millisecond clock, so two of them may agree.
 */
module Matchmaking {
  import opened Wrappers

  /** The n-th reading of the clock. */
  type Clock = nat -> int

  /** The type a client is created with names no such type, so it is undefined rather than Waiting. */
  datatype Kind = Undefined | Waiting | Playing

  datatype Player = Player(socket: int, id: int, kind: Kind)

  datatype Room = Room(id: int, left: int, right: int)

  /** The fields of a received message that are looked at; a missing one equals nothing. */
  datatype Message = Message(update: bool, roomId: Option<int>, clientId: Option<int>)

  datatype Notice = SetId(id: int) | SetRoom(room: Room) | Forward(message: Message)

  datatype Sent = Sent(socket: int, notice: Notice)

  datatype State = State(players: seq<Player>, rooms: seq<Room>, readings: nat, sent: seq<Sent>)

  const EMPTY := State([], [], 0, [])

  // ----- What each handler does to the state -----

  function Seat(players: seq<Player>, i: nat): (r: seq<Player>)
    requires i < |players|
    ensures |r| == |players|
  {
    players[i := players[i].(kind := Playing)]
  }

  function MakeRoom(clock: Clock, s: State, l: nat, r: nat): State
    requires l < |s.players| && r < |s.players|
  {
    var room := Room(clock(s.readings), s.players[l].id, s.players[r].id);
    State(
      Seat(Seat(s.players, l), r),
      s.rooms + [room],
      s.readings + 1,
      s.sent + [Sent(s.players[l].socket, SetRoom(room)), Sent(s.players[r].socket, SetRoom(room))])
  }

  /** The partner of a client that is not playing is the next one, playing or not. */
  function MakeRooms(clock: Clock, s: State, i: nat): State
    requires i <= |s.players|
    decreases |s.players| - i
  {
    if i == |s.players| then s
    else if s.players[i].kind != Playing && i + 1 < |s.players| then
      MakeRooms(clock, MakeRoom(clock, s, i, i + 1), i + 1)
    else MakeRooms(clock, s, i + 1)
  }

  lemma NextRoom(clock: Clock, s: State, i: nat)
    requires i < |s.players|
    ensures MakeRooms(clock, s, i) ==
      if s.players[i].kind != Playing && i + 1 < |s.players| then
        MakeRooms(clock, MakeRoom(clock, s, i, i + 1), i + 1)
      else MakeRooms(clock, s, i + 1)
  {
  }

  lemma RoomsMade(clock: Clock, s: State)
    ensures MakeRooms(clock, s, |s.players|) == s
  {
  }

  function Join(clock: Clock, s: State, socket: int): State {
    var id := clock(s.readings);
    State(
      s.players + [Player(socket, id, Undefined)],
      s.rooms,
      s.readings + 1,
      s.sent + [Sent(socket, SetId(id))])
  }

  function Connect(clock: Clock, s: State, socket: int): State {
    MakeRooms(clock, Join(clock, s, socket), 0)
  }

  /** The place of the first client with this id, or the number of clients. */
  function IndexOf(players: seq<Player>, id: int): (i: nat)
    ensures i <= |players|
    ensures i < |players| ==> players[i].id == id
    ensures forall j | 0 <= j < i :: players[j].id != id
  {
    if players == [] then 0 else if players[0].id == id then 0 else 1 + IndexOf(players[1..], id)
  }

  function Target(room: Room, m: Message): int {
    if Some(room.left) == m.clientId then room.right else room.left
  }

  /** The places of the clients the message goes to, one for each room with the id it names. */
  function Recipients(s: State, rooms: seq<Room>, m: Message): seq<nat> {
    if rooms == [] || !m.update then []
    else if Some(rooms[0].id) == m.roomId then
      [IndexOf(s.players, Target(rooms[0], m))] + Recipients(s, rooms[1..], m)
    else Recipients(s, rooms[1..], m)
  }

  /** The sends that happen before one to a client that was not found; that one throws. */
  function Forwards(s: State, places: seq<nat>, m: Message): seq<Sent> {
    if places == [] || places[0] >= |s.players| then []
    else [Sent(s.players[places[0]].socket, Forward(m))] + Forwards(s, places[1..], m)
  }

  function Receive(s: State, m: Message): State {
    s.(sent := s.sent + Forwards(s, Recipients(s, s.rooms, m), m))
  }

  // ----- The objects -----

  class Client {
    const socket: int
    const id: int
    var kind: Kind

    constructor (socket: int, id: int)
      ensures this.socket == socket && this.id == id && kind == Undefined
    {
      this.socket, this.id, kind := socket, id, Undefined;
    }

    ghost function View(): Player
      reads this
    {
      Player(socket, id, kind)
    }
  }

  ghost function Views(clients: seq<Client>): (r: seq<Player>)
    reads clients
    ensures |r| == |clients| && forall i | 0 <= i < |clients| :: r[i] == clients[i].View()
  {
    if clients == [] then [] else Views(clients[..|clients| - 1]) + [clients[|clients| - 1].View()]
  }

  class WSServer {
    const clock: Clock
    var readings: nat
    var clients: seq<Client>
    var rooms: seq<Room>
    var sent: seq<Sent>

    ghost predicate Valid()
      reads this
    {
      forall i, j | 0 <= i < j < |clients| :: clients[i] != clients[j]
    }

    ghost function View(): State
      reads this, clients
    {
      State(Views(clients), rooms, readings, sent)
    }

    constructor (clock: Clock)
      ensures Valid() && View() == EMPTY && this.clock == clock && clients == []
    {
      this.clock, readings, clients, rooms, sent := clock, 0, [], [], [];
    }

    method Uid() returns (id: int)
      modifies `readings
      ensures id == clock(old(readings)) && readings == old(readings) + 1
    {
      id := clock(readings);
      readings := readings + 1;
    }

    method Send(socket: int, notice: Notice)
      modifies `sent
      ensures sent == old(sent) + [Sent(socket, notice)]
    {
      sent := sent + [Sent(socket, notice)];
    }

    method ConfirmConnection(socket: int)
      requires Valid()
      modifies this
      ensures Valid() && View() == Join(clock, old(View()), socket)
      ensures |clients| == |old(clients)| + 1 && clients[..|old(clients)|] == old(clients) &&
        fresh(clients[|old(clients)|])
    {
      hide Views;
      var id := Uid();
      var client := new Client(socket, id);
      clients := clients + [client];
      assert Views(clients) == old(Views(clients)) + [Player(socket, id, Undefined)];
      Send(socket, SetId(clients[|clients| - 1].id));
    }

    method GenerateRoom(l: nat, r: nat)
      requires Valid() && l < |clients| && r < |clients|
      modifies `rooms, `readings, `sent, clients
      ensures View() == MakeRoom(clock, old(View()), l, r)
      ensures clients[l].kind == Playing && clients[r].kind == Playing
      ensures var room := Room(clock(old(readings)), clients[l].id, clients[r].id);
        && rooms == old(rooms) + [room]
        && sent == old(sent) + [Sent(clients[l].socket, SetRoom(room)), Sent(clients[r].socket, SetRoom(room))]
    {
      hide Views;
      clients[l].kind := Playing;
      clients[r].kind := Playing;
      var id := Uid();
      rooms := rooms + [Room(id, clients[l].id, clients[r].id)];
      Send(clients[l].socket, SetRoom(rooms[|rooms| - 1]));
      Send(clients[r].socket, SetRoom(rooms[|rooms| - 1]));
      assert Views(clients) == Seat(Seat(old(Views(clients)), l), r);
    }

    method ConfirmRoom()
      requires Valid()
      modifies `rooms, `readings, `sent, clients
      ensures View() == MakeRooms(clock, old(View()), 0)
    {
      hide Views, MakeRoom, MakeRooms;
      var i := 0;
      ghost var made := MakeRooms(clock, View(), 0);
      while i < |clients|
        invariant i <= |clients|
        invariant made == MakeRooms(clock, View(), i)
      {
        NextRoom(clock, View(), i);
        if clients[i].kind == Playing {
          i := i + 1;
          continue;
        }
        var j := i + 1;
        // This loop has its own variable, which hides j.
        for k := i + 1 to |clients| {
          if clients[k].kind == Waiting {
            break;
          }
        }
        if j < |clients| {
          GenerateRoom(i, j);
        }
        i := i + 1;
      }
      RoomsMade(clock, View());
    }

    method OnConnection(socket: int)
      requires Valid()
      modifies this, clients
      ensures Valid() && View() == Connect(clock, old(View()), socket)
      ensures |clients| == |old(clients)| + 1 && clients[..|old(clients)|] == old(clients) &&
        fresh(clients[|old(clients)|])
    {
      ConfirmConnection(socket);
      ConfirmRoom();
    }

    /** Array.find over the clients. */
    method FindClient(id: int) returns (i: nat)
      ensures i == IndexOf(View().players, id)
    {
      hide Views;
      ghost var players := View().players;
      i := 0;
      while i < |clients| && clients[i].id != id
        invariant i <= |clients|
        invariant forall j | 0 <= j < i :: players[j].id != id
      {
        i := i + 1;
      }
      IndexIsFirst(players, id, i);
    }

    /** on_message; throws when a room names a client that is not there. */
    method OnMessage(m: Message) returns (threw: bool)
      modifies `sent
      ensures View() == Receive(old(View()), m)
      ensures threw <==> |clients| in Recipients(old(View()), rooms, m)
    {
      hide Views, IndexOf, Recipients, Forwards, Target;
      ghost var s := View();
      threw := false;
      NoForward(s, s.rooms, m);
      NoForward(s, [], m);
      if !m.update {
        return;
      }
      ghost var before := sent;
      ghost var places := Recipients(s, rooms, m);
      ghost var all := Forwards(s, places, m);
      assert rooms[0..] == rooms && rooms[|rooms|..] == [];
      for k := 0 to |rooms|
        invariant before + all == sent + Forwards(s, Recipients(s, rooms[k..], m), m)
        invariant |clients| in places <==> |clients| in Recipients(s, rooms[k..], m)
      {
        RoomStep(s, k, m);
        if Some(rooms[k].id) == m.roomId {
          ghost var sentBefore, i := sent, IndexOf(s.players, Target(rooms[k], m));
          var found := ForwardTo(rooms[k], m);
          if !found {
            return true;
          }
          Reassociate(sentBefore, s.players[i].socket, m, Forwards(s, Recipients(s, rooms[k + 1..], m), m));
        }
      }
    }

    /** The other side of a room, if a client has its id. */
    method ForwardTo(room: Room, m: Message) returns (found: bool)
      modifies `sent
      ensures var i := IndexOf(old(View()).players, Target(room, m));
        && (found <==> i < |clients|)
        && sent == old(sent) + (if found then [Sent(old(View()).players[i].socket, Forward(m))] else [])
    {
      hide Views, IndexOf;
      var i := FindClient(if Some(room.left) == m.clientId then room.right else room.left);
      found := i < |clients|;
      if found {
        Send(clients[i].socket, Forward(m));
      }
    }
  }

  lemma Reassociate(before: seq<Sent>, socket: int, m: Message, after: seq<Sent>)
    ensures before + ([Sent(socket, Forward(m))] + after) == before + [Sent(socket, Forward(m))] + after
  {
  }

  lemma IndexIsFirst(players: seq<Player>, id: int, i: nat)
    requires i <= |players| && (i < |players| ==> players[i].id == id)
    requires forall j | 0 <= j < i :: players[j].id != id
    ensures IndexOf(players, id) == i
  {
  }

  lemma NoForward(s: State, rooms: seq<Room>, m: Message)
    ensures rooms == [] || !m.update ==> Recipients(s, rooms, m) == []
    ensures Forwards(s, [], m) == []
  {
  }

  lemma RoomStep(s: State, k: nat, m: Message)
    requires k < |s.rooms| && m.update
    ensures var i := IndexOf(s.players, Target(s.rooms[k], m)); var rest := Recipients(s, s.rooms[k + 1..], m);
      Recipients(s, s.rooms[k..], m) == (if Some(s.rooms[k].id) == m.roomId then [i] + rest else rest)
    ensures var i := IndexOf(s.players, Target(s.rooms[k], m)); var rest := Recipients(s, s.rooms[k + 1..], m);
      Forwards(s, [i] + rest, m) ==
        if i == |s.players| then [] else [Sent(s.players[i].socket, Forward(m))] + Forwards(s, rest, m)
  {
    hide IndexOf;
    assert s.rooms[k..][1..] == s.rooms[k + 1..];
    var i := IndexOf(s.players, Target(s.rooms[k], m));
    assert ([i] + Recipients(s, s.rooms[k + 1..], m))[1..] == Recipients(s, s.rooms[k + 1..], m);
  }
}
