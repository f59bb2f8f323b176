/**
 The relay itself: delivery of a dispatched frame to a mailbox, the handling
 of one inbound frame, and the per-connection lifecycle (register, read and
 dispatch frames in order, deregister).

 The relay is modelled as one sequential actor. Socket writes are abstract:
 a write to a connection in `fails` reports an error and delivers nothing,
 every other write delivers its frame. The frames a connection reads before
 its read fails (peer closed, transport error, a frame that does not decode
 into a JSON object) are given as a finite sequence; a JSON `null` frame
 decodes without error and reads as the empty message.
 */
module Signalling {
  import opened Wire
  import opened Dispatcher
  import opened Registry

  /** The connections a sequence of writes went to. */
  function Receivers(ws: seq<Write>): set<Conn>
  {
    set k | 0 <= k < |ws| :: ws[k].conn
  }

  /** Appending a write adds exactly its connection to the receivers. */
  lemma ReceiversAppend(ws: seq<Write>, w: Write)
    ensures Receivers(ws + [w]) == Receivers(ws) + {w.conn}
  {
    var ws' := ws + [w];
    assert ws'[|ws|] == w;
    forall c | c in Receivers(ws') ensures c in Receivers(ws) + {w.conn} {
      var k :| 0 <= k < |ws'| && ws'[k].conn == c;
      if k < |ws| { assert ws[k] == ws'[k]; }
    }
    forall c | c in Receivers(ws) ensures c in Receivers(ws') {
      var k :| 0 <= k < |ws| && ws[k].conn == c;
      assert ws'[k] == ws[k];
    }
  }

  /** `ws` writes `f` exactly once to each connection of `targets`, and to nothing else. */
  ghost predicate WritesOnceEach(ws: seq<Write>, targets: set<Conn>, f: Frame)
  {
    && (forall k :: 0 <= k < |ws| ==> ws[k].frame == f)
    && (forall k, l :: 0 <= k < l < |ws| ==> ws[k].conn != ws[l].conn)
    && Receivers(ws) == targets
  }

  /** Writes one `{event, data}` frame to every member of the mailbox of `roomId`, in whatever
      order the mailbox is enumerated. A member whose write fails is skipped and delivery goes on
      to the rest; an identity without a mailbox receives nothing. Returns the writes that
      succeeded. */
  method ForwardToRoom(rooms: map<Identity, set<Conn>>, roomId: Identity, event: string,
                       data: map<string, Json>, fails: set<Conn>)
    returns (sent: seq<Write>)
    ensures WritesOnceEach(sent, MailboxOf(rooms, roomId) - fails, Frame(event, Obj(data)))
  {
    var frame := Frame(event, Obj(data));
    sent := [];
    if roomId in rooms {
      var connections := rooms[roomId];
      var pending := connections;
      while pending != {}
        invariant pending <= connections
        invariant WritesOnceEach(sent, (connections - pending) - fails, frame)
        decreases pending
      {
        var conn :| conn in pending;
        if conn !in fails {
          assert forall k :: 0 <= k < |sent| ==> sent[k].conn in Receivers(sent);
          ReceiversAppend(sent, Write(conn, frame));
          sent := sent + [Write(conn, frame)];
        }
        pending := pending - {conn};
      }
    }
  }

  /** The result of handling one inbound frame: the writes that succeeded, or the panic the
      handler raised on a missing required field. */
  datatype Handled = Completed(sent: seq<Write>) | Panicked(field: string)

  /** The connections an output is delivered to: the sender's own connection for a reply, the
      whole mailbox of the target identity for a forward. */
  function Recipients(rooms: map<Identity, set<Conn>>, conn: Conn, o: Output): set<Conn>
  {
    match o
    case Reply(_) => {conn}
    case Forward(roomId, _, _) => MailboxOf(rooms, roomId)
  }

  /** `h` is what handling `msg` from `conn` (identity `sender`) does against mailboxes `rooms`:
      the dispatcher's panic, or each output's frame written once to each of its recipients whose
      write does not fail. */
  ghost predicate Delivers(rooms: map<Identity, set<Conn>>, conn: Conn, sender: Identity,
                           msg: Message, fails: set<Conn>, h: Handled)
  {
    match Dispatch(sender, msg)
    case Panic(field) => h == Panicked(field)
    case Outputs(outs) =>
      && h.Completed?
      && (outs == [] ==> h.sent == [])
      && (|outs| == 1 ==> WritesOnceEach(h.sent, Recipients(rooms, conn, outs[0]) - fails, outs[0].FrameOf()))
  }

  /** Handles one inbound frame read from `conn`, whose identity is `senderId`. */
  method HandleMessage(rooms: map<Identity, set<Conn>>, conn: Conn, senderId: Identity,
                       message: Message, fails: set<Conn>)
    returns (h: Handled)
    ensures Delivers(rooms, conn, senderId, message, fails, h)
  {
    match Dispatch(senderId, message)
    case Panic(field) =>
      h := Panicked(field);
    case Outputs(outs) =>
      if outs == [] {
        h := Completed([]);
      } else {
        match outs[0]
        case Reply(pong) =>
          var sent := if conn in fails then [] else [Write(conn, pong)];
          assert sent != [] ==> Receivers(sent) == {conn};
          h := Completed(sent);
        case Forward(roomId, event, payload) =>
          var sent := ForwardToRoom(rooms, roomId, event, payload, fails);
          h := Completed(sent);
      }
  }

  /** How many of `frames` the read loop hands to the dispatcher: all of them, unless one makes
      the handler panic, in which case the loop ends with that frame. */
  function Consumed(sender: Identity, frames: seq<Message>): (n: nat)
    ensures n <= |frames|
    ensures forall j :: 0 <= j < n - 1 ==> !Panics(sender, frames[j])
    ensures n < |frames| ==> 0 < n && Panics(sender, frames[n - 1])
  {
    if frames == [] then 0
    else if Panics(sender, frames[0]) then 1
    else 1 + Consumed(sender, frames[1..])
  }

  /** One entry of a connection's lifecycle. */
  datatype Step =
    | Registered(conn: Conn, id: Identity)
    | Dispatched(msg: Message, outcome: Handled)
    | Unregistered(conn: Conn, id: Identity)

  /** The relay's shared routing state: the connection registry and the room directory. */
  class Relay {
    var clients: map<Conn, Identity>
    var rooms: map<Identity, set<Conn>>

    /** Both maps as one value. */
    function State(): Directory
      reads this
    {
      Directory(clients, rooms)
    }

    ghost predicate Valid()
      reads this
    {
      Consistent(State())
    }

    /** A relay with no connections. */
    constructor ()
      ensures Valid() && clients == map[] && rooms == map[]
    {
      clients := map[];
      rooms := map[];
      EmptyIsConsistent();
    }

    /** Adds `conn` to the mailbox of `roomId`, creating the mailbox when there is none. */
    method JoinRoom(roomId: Identity, conn: Conn)
      modifies this
      ensures clients == old(clients)
      ensures rooms == Joined(old(rooms), roomId, conn)
    {
      if roomId !in rooms {
        rooms := rooms[roomId := {}];
      }
      rooms := rooms[roomId := rooms[roomId] + {conn}];
    }

    /** Removes `conn` from the mailbox of `roomId` and deletes the mailbox when it becomes
        empty; does nothing when `roomId` has no mailbox. */
    method LeaveRoom(roomId: Identity, conn: Conn)
      modifies this
      ensures clients == old(clients)
      ensures rooms == Left(old(rooms), roomId, conn)
    {
      if roomId in rooms {
        rooms := rooms[roomId := rooms[roomId] - {conn}];
        if |rooms[roomId]| == 0 {
          rooms := rooms - {roomId};
        }
      }
    }

    /** Records that `conn` claims `callerId` and adds it to that identity's mailbox. */
    method RegisterClient(conn: Conn, callerId: Identity)
      modifies this
      ensures State() == Register(old(State()), conn, callerId)
      ensures old(Valid()) && Claimable(old(State()), conn, callerId) ==> Valid()
    {
      if Valid() && Claimable(State(), conn, callerId) {
        RegisterKeepsConsistent(State(), conn, callerId);
      }
      clients := clients[conn := callerId];
      JoinRoom(callerId, conn);
    }

    /** Forgets `conn` and removes it from the mailbox of `callerId`. */
    method UnregisterClient(conn: Conn, callerId: Identity)
      modifies this
      ensures State() == Unregister(old(State()), conn, callerId)
      ensures old(Valid()) && Claimable(old(State()), conn, callerId) ==> Valid()
    {
      if Valid() && Claimable(State(), conn, callerId) {
        UnregisterKeepsConsistent(State(), conn, callerId);
      }
      clients := clients - {conn};
      LeaveRoom(callerId, conn);
    }

    /** The lifecycle of one newly opened connection `conn` that asked for identity `callerId`
        and then delivered `frames` before its read failed. An empty identity is rejected before
        anything else happens. Otherwise the connection is registered, the frames are handled in
        the order they were read (the loop ends early if one makes the handler panic), and the
        connection is deregistered exactly once, after the loop. */
    method Serve(conn: Conn, callerId: Identity, frames: seq<Message>, fails: set<Conn>)
      returns (trace: seq<Step>)
      requires Valid() && conn !in clients
      modifies this
      ensures Valid() && clients == old(clients) && rooms == old(rooms)
      ensures callerId == "" ==> trace == []
      ensures callerId != "" ==>
        var n := Consumed(callerId, frames);
        && |trace| == n + 2
        && trace[0] == Registered(conn, callerId)
        && trace[n + 1] == Unregistered(conn, callerId)
        && (forall k :: 1 <= k <= n ==>
              && trace[k].Dispatched?
              && trace[k].msg == frames[k - 1]
              && Delivers(Joined(old(rooms), callerId, conn), conn, callerId, frames[k - 1], fails, trace[k].outcome))
    {
      trace := [];
      if callerId == "" {
        return;
      }
      ghost var before := State();
      RegisterClient(conn, callerId);
      trace := [Registered(conn, callerId)];
      var i := 0;
      var stopped := false;
      while i < |frames| && !stopped
        invariant 0 <= i <= |frames|
        invariant State() == Register(before, conn, callerId) && Valid()
        invariant stopped ==> 0 < i && Panics(callerId, frames[i - 1])
        invariant forall j :: 0 <= j < (if stopped then i - 1 else i) ==> !Panics(callerId, frames[j])
        invariant |trace| == i + 1 && trace[0] == Registered(conn, callerId)
        invariant forall k :: 1 <= k <= i ==>
                    && trace[k].Dispatched?
                    && trace[k].msg == frames[k - 1]
                    && Delivers(Joined(before.rooms, callerId, conn), conn, callerId, frames[k - 1], fails, trace[k].outcome)
      {
        var h := HandleMessage(rooms, conn, callerId, frames[i], fails);
        assert rooms == Joined(before.rooms, callerId, conn);
        trace := trace + [Dispatched(frames[i], h)];
        i := i + 1;
        stopped := h.Panicked?;
      }
      assert i == Consumed(callerId, frames);
      UnregisterClient(conn, callerId);
      RegisterThenUnregister(before, conn, callerId);
      trace := trace + [Unregistered(conn, callerId)];
    }
  }
}
