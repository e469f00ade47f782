/**
 * The per-process connection registry: poll code to the set of sockets that
 * joined it, the join and close handlers that maintain it, and the fan-out of
 * bus messages to a room's open sockets.
 */
module Rooms {
  import opened Common
  import opened PollModel

  /** The WebSocket readyState value of an open connection. */
  const Open := 1

  /** The readyState of a connection whose closing handshake has finished. */
  const Closed := 3

  /** A viewer connection. `pollCode` is the code it last joined; `received` is what was sent to it. */
  class Socket {
    var readyState: int
    var pollCode: Option<string>
    var received: seq<VoteUpdate>

    constructor (readyState: int)
      ensures this.readyState == readyState && pollCode == None && received == []
    {
      this.readyState := readyState;
      pollCode := None;
      received := [];
    }
  }

  /** A client frame after JSON parsing: garbage, or an object with a `type` and maybe a `pollCode`. */
  datatype ClientFrame = Unparseable | Frame(kind: string, pollCode: Option<string>)

  /** The join message a client sends once its connection opens. */
  function JoinFrame(pollCode: string): ClientFrame {
    Frame("JOIN_POLL", Some(pollCode))
  }

  /** The frame asks to join a room: `type` is JOIN_POLL and `pollCode` is a non-empty string. */
  predicate IsJoin(f: ClientFrame) {
    f.Frame? && f.kind == "JOIN_POLL" && f.pollCode.Some? && f.pollCode.value != ""
  }

  /** `pollRooms`. */
  class Registry {
    var rooms: map<string, set<Socket>>

    /** No room is ever left empty. */
    ghost predicate Valid()
      reads this
    {
      forall code :: code in rooms ==> rooms[code] != {}
    }

    constructor ()
      ensures Valid() && rooms == map[]
    {
      rooms := map[];
    }

    /**
     * The message handler. A join adds the socket to the code's room (creating
     * it when absent) and records the code on the socket, without leaving any
     * room joined before; every other frame changes nothing.
     */
    method OnMessage(ws: Socket, f: ClientFrame)
      requires Valid()
      modifies this, ws`pollCode
      ensures Valid()
      ensures IsJoin(f) ==>
        var code := f.pollCode.value;
        rooms == old(rooms)[code := (if code in old(rooms) then old(rooms)[code] else {}) + {ws}] &&
        ws.pollCode == Some(code)
      ensures !IsJoin(f) ==> rooms == old(rooms) && ws.pollCode == old(ws.pollCode)
    {
      if IsJoin(f) {
        var code := f.pollCode.value;
        if code !in rooms {
          rooms := rooms[code := {}];
        }
        rooms := rooms[code := rooms[code] + {ws}];
        ws.pollCode := Some(code);
      }
    }

    /**
     * The close handler: the socket leaves the room it last joined, and that
     * room's entry goes when it becomes empty. A socket that never joined, or
     * whose room is gone, changes nothing. The `close` event fires only once
     * the connection is no longer open.
     */
    method OnClose(ws: Socket)
      requires Valid()
      requires ws.readyState != Open
      modifies this
      ensures Valid()
      ensures ws.pollCode.Some? && ws.pollCode.value != "" && ws.pollCode.value in old(rooms) ==>
        var code := ws.pollCode.value;
        var left := old(rooms)[code] - {ws};
        rooms == if left == {} then old(rooms) - {code} else old(rooms)[code := left]
      ensures !(ws.pollCode.Some? && ws.pollCode.value != "" && ws.pollCode.value in old(rooms)) ==>
        rooms == old(rooms)
    {
      if ws.pollCode.Some? && ws.pollCode.value != "" && ws.pollCode.value in rooms {
        var code := ws.pollCode.value;
        var room := rooms[code] - {ws};
        if room == {} {
          rooms := rooms - {code};
        } else {
          rooms := rooms[code := room];
        }
      }
    }

    /** The sockets a bus message for `code` goes to. */
    function Audience(code: string): set<Socket>
      reads this
    {
      if code in rooms then rooms[code] else {}
    }

    /**
     * The `poll_updates` subscriber: the message's data is sent once to every
     * open socket in its poll's room. Closed sockets in the room and sockets
     * outside it receive nothing.
     */
    method Broadcast(msg: BusMessage)
      modifies Audience(msg.pollCode)
      ensures forall s :: s in Audience(msg.pollCode) ==>
        s.received == old(s.received) + (if old(s.readyState) == Open then [msg.data] else [])
      ensures forall s :: s in Audience(msg.pollCode) ==>
        s.readyState == old(s.readyState) && s.pollCode == old(s.pollCode)
    {
      if msg.pollCode in rooms && rooms[msg.pollCode] != {} {
        var clients := rooms[msg.pollCode];
        var pending := clients;
        while pending != {}
          invariant pending <= clients
          invariant forall s :: s in clients - pending ==>
            s.received == old(s.received) + (if old(s.readyState) == Open then [msg.data] else [])
          invariant forall s :: s in pending ==> s.received == old(s.received)
          invariant forall s :: s in clients ==> s.readyState == old(s.readyState) && s.pollCode == old(s.pollCode)
          decreases pending
        {
          var client :| client in pending;
          if client.readyState == Open {
            client.received := client.received + [msg.data];
          }
          pending := pending - {client};
        }
      }
    }
  }
}
