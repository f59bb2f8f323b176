/**
 The connection registry and the room directory, as values.

 `clients` maps each connection to the identity it claims; `rooms` maps each
 identity to its mailbox, the set of connections currently claiming it. The
 functions here say what each update does to the pair of maps; the class
 `Relay` in module `Signalling` performs the same updates in place. The
 invariant `Consistent` says that every mailbox is non-empty and that the two
 maps describe the same relation.
 */
module Registry {
  import opened Wire

  datatype Directory = Directory(clients: map<Conn, Identity>, rooms: map<Identity, set<Conn>>)

  /** The connections currently in the mailbox of `id`; empty when it has none. */
  function MailboxOf(rooms: map<Identity, set<Conn>>, id: Identity): set<Conn>
  {
    if id in rooms then rooms[id] else {}
  }

  /** `rooms` after `conn` joins the mailbox of `id`, creating the mailbox when absent. */
  function Joined(rooms: map<Identity, set<Conn>>, id: Identity, conn: Conn): map<Identity, set<Conn>>
  {
    rooms[id := MailboxOf(rooms, id) + {conn}]
  }

  /** `rooms` after `conn` leaves the mailbox of `id`: the mailbox is deleted when it becomes
      empty, and nothing happens when `id` has no mailbox. */
  function Left(rooms: map<Identity, set<Conn>>, id: Identity, conn: Conn): map<Identity, set<Conn>>
  {
    if id !in rooms then rooms
    else if rooms[id] - {conn} == {} then rooms - {id}
    else rooms[id := rooms[id] - {conn}]
  }

  /** Registration of `conn` under `id` in both maps. */
  function Register(d: Directory, conn: Conn, id: Identity): Directory
  {
    Directory(d.clients[conn := id], Joined(d.rooms, id, conn))
  }

  /** Deregistration of `conn` from both maps, using the identity it registered with. */
  function Unregister(d: Directory, conn: Conn, id: Identity): Directory
  {
    Directory(d.clients - {conn}, Left(d.rooms, id, conn))
  }

  /** No mailbox is left empty. */
  ghost predicate NoEmptyMailbox(rooms: map<Identity, set<Conn>>)
  {
    forall id :: id in rooms ==> rooms[id] != {}
  }

  /** A connection is in the mailbox of `id` exactly when the registry says it claims `id`. */
  ghost predicate InStep(d: Directory)
  {
    && (forall c :: c in d.clients ==> d.clients[c] in d.rooms && c in d.rooms[d.clients[c]])
    && (forall id, c :: id in d.rooms && c in d.rooms[id] ==> c in d.clients && d.clients[c] == id)
  }

  ghost predicate Consistent(d: Directory)
  {
    NoEmptyMailbox(d.rooms) && InStep(d)
  }

  /** A connection that may be registered under `id` without breaking `Consistent`:
      it is either unknown or already registered under the same identity. */
  ghost predicate Claimable(d: Directory, conn: Conn, id: Identity)
  {
    conn in d.clients ==> d.clients[conn] == id
  }

  // ---------------------------------------------------------------------------
  // What one update does.
  // ---------------------------------------------------------------------------

  /** After registration the connection claims `id`, is in that mailbox together with every
      connection that was already there, and every other entry of both maps is unchanged. */
  lemma RegisterEffect(d: Directory, conn: Conn, id: Identity)
    ensures var d' := Register(d, conn, id);
      && d'.clients.Keys == d.clients.Keys + {conn} && d'.clients[conn] == id
      && (forall c :: c in d.clients && c != conn ==> d'.clients[c] == d.clients[c])
      && d'.rooms.Keys == d.rooms.Keys + {id}
      && MailboxOf(d'.rooms, id) == MailboxOf(d.rooms, id) + {conn}
      && (forall i :: i != id ==> MailboxOf(d'.rooms, i) == MailboxOf(d.rooms, i))
  {
  }

  /** After deregistration the connection is in neither map, the mailbox of `id` loses exactly
      that connection (and disappears when nothing is left), and every other entry is unchanged.
      When `id` had no mailbox the rooms are untouched. */
  lemma UnregisterEffect(d: Directory, conn: Conn, id: Identity)
    ensures var d' := Unregister(d, conn, id);
      && d'.clients.Keys == d.clients.Keys - {conn}
      && (forall c :: c in d'.clients ==> d'.clients[c] == d.clients[c])
      && MailboxOf(d'.rooms, id) == MailboxOf(d.rooms, id) - {conn}
      && (id in d'.rooms <==> MailboxOf(d.rooms, id) - {conn} != {})
      && (forall i :: i != id ==> (i in d'.rooms <==> i in d.rooms) && MailboxOf(d'.rooms, i) == MailboxOf(d.rooms, i))
      && (id !in d.rooms ==> d'.rooms == d.rooms)
  {
  }

  // ---------------------------------------------------------------------------
  // The invariant, and what a pair of updates does.
  // ---------------------------------------------------------------------------

  /** The empty registry, where the relay starts, is consistent. */
  lemma EmptyIsConsistent()
    ensures Consistent(Directory(map[], map[]))
  {
  }

  /** Registration keeps the two maps in step and leaves no mailbox empty. */
  lemma RegisterKeepsConsistent(d: Directory, conn: Conn, id: Identity)
    requires Consistent(d) && Claimable(d, conn, id)
    ensures Consistent(Register(d, conn, id))
  {
  }

  /** Deregistration with the identity the connection registered under keeps the invariant. */
  lemma UnregisterKeepsConsistent(d: Directory, conn: Conn, id: Identity)
    requires Consistent(d) && Claimable(d, conn, id)
    ensures Consistent(Unregister(d, conn, id))
  {
  }

  /** Deregistering a connection that was never registered is a no-op on a consistent registry. */
  lemma UnregisterUnknownIsNoOp(d: Directory, conn: Conn, id: Identity)
    requires Consistent(d) && conn !in d.clients
    ensures Unregister(d, conn, id) == d
  {
    assert d.clients - {conn} == d.clients;
    if id in d.rooms {
      assert conn !in d.rooms[id];
      assert d.rooms[id] - {conn} == d.rooms[id];
    }
  }

  /** Registering a new connection and then deregistering it with the same identity restores
      both maps exactly. */
  lemma RegisterThenUnregister(d: Directory, conn: Conn, id: Identity)
    requires Consistent(d) && conn !in d.clients
    ensures Unregister(Register(d, conn, id), conn, id) == d
  {
  }

  /** Registering the same connection under the same identity twice is the same as once. */
  lemma RegisterIdempotent(d: Directory, conn: Conn, id: Identity)
    ensures Register(Register(d, conn, id), conn, id) == Register(d, conn, id)
  {
  }

  /** Multi-device presence: of two connections under one identity, the one that stays is still
      in the mailbox after the other leaves, and the mailbox is not deleted. */
  lemma SecondDeviceStays(d: Directory, c1: Conn, c2: Conn, id: Identity)
    requires c1 != c2
    ensures var d' := Unregister(Register(Register(d, c1, id), c2, id), c1, id);
      && id in d'.rooms && c2 in d'.rooms[id] && c1 !in d'.rooms[id]
      && c2 in d'.clients && d'.clients[c2] == id && c1 !in d'.clients
  {
  }
}
