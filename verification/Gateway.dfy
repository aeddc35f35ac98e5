/** The gateway's objects: clients, their event arrays, and the maps over them. Every method makes
    one step of the protocol in module GatewayProtocol. */
module Gateway {
  import opened GatewayProtocol
  import opened Wrappers

  /** An array of events, shared by reference. */
  class EventBuffer {
    const owner: Id
    var items: seq<Numbered>
    ghost var evicted: seq<Numbered>

    ghost function AsLog(): Log
      reads this
    {
      Log(evicted, items)
    }

    constructor (owner: Id)
      ensures this.owner == owner && AsLog() == NEW_LOG
    {
      this.owner := owner;
      items := [];
      evicted := [];
    }
  }

  class Client {
    const id: Id
    var userId: Option<User>
    var identified: bool
    var closing: bool
    var lastNumber: nat
    var buffer: EventBuffer
    var bufferFloor: nat
    var sent: seq<Frame>
    ghost var resumedAt: nat

    ghost function Value(): Socket
      reads this
    {
      Socket(userId, identified, closing, lastNumber, buffer.owner, bufferFloor, resumedAt, sent)
    }

    constructor (id: Id)
      ensures this.id == id && Value() == NewSocket(id)
      ensures fresh(buffer) && buffer.owner == id && buffer.AsLog() == NEW_LOG
    {
      this.id := id;
      userId := None;
      identified := false;
      closing := false;
      lastNumber := 0;
      buffer := new EventBuffer(id);
      bufferFloor := 0;
      sent := [];
      resumedAt := 0;
    }

    /** `amount` is what the socket reports as not yet sent. */
    method SendRaw(frame: Frame, amount: nat)
      modifies this
      ensures buffer == old(buffer)
      ensures Value() == Send(old(Value()), frame, amount)
    {
      if closing {
        return;
      }
      if amount > MAX_BUFFERED_BYTES {
        closing := true;
        return;
      }
      sent := sent + [frame];
    }

    method SendDispatch(event: Event, amount: nat)
      modifies this, buffer
      ensures buffer == old(buffer)
      ensures Value() == Dispatched(old(Value()), old(buffer.AsLog()), event, amount)
      ensures buffer.AsLog() == Appended(old(buffer.AsLog()), NextItem(old(Value()), event))
    {
      lastNumber := lastNumber + 1;
      var item := Numbered(lastNumber, event);
      buffer.items := buffer.items + [item];
      if |buffer.items| > BUFFER_MAX {
        var dropped := buffer.items[0];
        buffer.evicted := buffer.evicted + [dropped];
        buffer.items := buffer.items[1..];
        bufferFloor := dropped.s + 1;
      } else if |buffer.items| == 1 {
        bufferFloor := lastNumber;
      }
      SendRaw(Dispatch(item), amount);
    }

    /** The replay loop of RESUME. */
    method SendItems(items: seq<Numbered>, amounts: seq<nat>)
      modifies this
      ensures buffer == old(buffer)
      ensures Value() == SendAll(old(Value()), items, amounts)
    {
      for k := 0 to |items|
        invariant buffer == old(buffer)
        invariant Value() == SendAll(old(Value()), items[..k], amounts)
      {
        assert items[..k + 1][..k] == items[..k];
        SendRaw(Dispatch(items[k]), AmountAt(amounts, k));
      }
      assert items[..|items|] == items;
    }
  }

  datatype OrphanedSession = OrphanedSession(
    userId: User,
    lastNumber: nat,
    buffer: EventBuffer,
    bufferFloor: nat,
    expiresAt: int)

  function AsOrphan(o: OrphanedSession): Orphan {
    Orphan(o.userId, o.lastNumber, o.buffer.owner, o.bufferFloor, o.expiresAt)
  }

  class Gateway {
    var clients: map<Id, Client>
    var userConnections: map<User, set<Id>>
    var orphanedSessions: map<Id, OrphanedSession>
    /** The calls made to the presence service. */
    var presence: seq<PresenceCall>
    /** Every connection and every array so far. */
    ghost var sockets: map<Id, Client>
    ghost var arrays: map<Id, EventBuffer>
    ghost var everyClient: set<Client>
    ghost var everyArray: set<EventBuffer>

    ghost predicate Owns(buffer: EventBuffer)
      reads this`arrays
    {
      buffer.owner in arrays && arrays[buffer.owner] == buffer
    }

    ghost predicate Knows(client: Client)
      reads this`sockets
    {
      client.id in sockets && sockets[client.id] == client
    }

    ghost predicate ValidSockets()
      reads this`sockets, this`arrays, this`everyClient, everyClient
    {
      forall id :: id in sockets ==> sockets[id] in everyClient && sockets[id].id == id && Owns(sockets[id].buffer)
    }

    ghost predicate ValidClients()
      reads this`clients, this`sockets
    {
      forall id :: id in clients ==> id in sockets && clients[id] == sockets[id]
    }

    ghost predicate ValidArrays()
      reads this`arrays, this`everyArray
    {
      forall id :: id in arrays ==> arrays[id] in everyArray && arrays[id].owner == id
    }

    ghost predicate ValidOrphans()
      reads this`orphanedSessions, this`arrays
    {
      forall x :: x in orphanedSessions ==> Owns(orphanedSessions[x].buffer)
    }

    ghost predicate Valid()
      reads this, everyClient
    {
      ValidSockets() && ValidClients() && ValidArrays() && ValidOrphans()
    }

    ghost function SocketValues(): map<Id, Socket>
      reads this`sockets, this`everyClient, everyClient
    {
      map id | id in sockets && sockets[id] in everyClient :: sockets[id].Value()
    }

    ghost function Logs(): map<Id, Log>
      reads this`arrays, this`everyArray, everyArray
    {
      map id | id in arrays && arrays[id] in everyArray :: arrays[id].AsLog()
    }

    ghost function Orphans(): map<Id, Orphan>
      reads this`orphanedSessions
    {
      map x | x in orphanedSessions :: AsOrphan(orphanedSessions[x])
    }

    ghost function Abstract(): State
      reads this, everyClient, everyArray
    {
      State(SocketValues(), clients.Keys, Logs(), Orphans(), userConnections, presence)
    }

    /** A change to one client alone. */
    twostate lemma ClientStepped(client: Client)
      requires old(ValidSockets()) && old(Knows(client)) && Owns(client.buffer)
      requires sockets == old(sockets) && arrays == old(arrays) && everyClient == old(everyClient)
      requires forall c :: c in everyClient && c != client ==> unchanged(c)
      ensures ValidSockets() && SocketValues() == old(SocketValues())[client.id := client.Value()]
    {
    }

    /** A change to one array alone. */
    twostate lemma ArrayStepped(buffer: EventBuffer)
      requires old(ValidArrays()) && old(Owns(buffer))
      requires arrays == old(arrays) && everyArray == old(everyArray)
      requires forall b :: b in everyArray && b != buffer ==> unchanged(b)
      ensures ValidArrays() && Logs() == old(Logs())[buffer.owner := buffer.AsLog()]
    {
    }

    lemma LookUp(client: Client)
      requires Valid() && Knows(client)
      ensures Owns(client.buffer) && client.buffer in everyArray && client in everyClient
      ensures client.id in SocketValues() && SocketValues()[client.id] == client.Value()
      ensures client.buffer.owner in Logs() && Logs()[client.buffer.owner] == client.buffer.AsLog()
    {
    }

    lemma LookUpOrphan(sid: Id)
      requires Valid()
      ensures sid in orphanedSessions <==> sid in Orphans()
      ensures sid in orphanedSessions ==>
                var o := orphanedSessions[sid];
                && Orphans()[sid] == AsOrphan(o) && Owns(o.buffer)
                && o.buffer.owner in Logs() && Logs()[o.buffer.owner] == o.buffer.AsLog()
    {
    }

    twostate lemma OrphanDropped(sid: Id)
      requires old(ValidOrphans()) && arrays == old(arrays)
      requires orphanedSessions == old(orphanedSessions) - {sid}
      ensures ValidOrphans() && Orphans() == old(Orphans()) - {sid}
    {
    }

    twostate lemma OrphanStored(sid: Id, new o: OrphanedSession)
      requires old(ValidOrphans()) && arrays == old(arrays) && Owns(o.buffer)
      requires orphanedSessions == old(orphanedSessions)[sid := o]
      ensures ValidOrphans() && Orphans() == old(Orphans())[sid := AsOrphan(o)]
    {
    }

    twostate lemma OrphansSwept(now: int)
      requires old(ValidOrphans()) && arrays == old(arrays)
      requires forall x :: x in orphanedSessions <==> x in old(orphanedSessions) && old(orphanedSessions)[x].expiresAt >= now
      requires forall x :: x in orphanedSessions ==> orphanedSessions[x] == old(orphanedSessions)[x]
      ensures ValidOrphans()
      ensures Orphans() == map x | x in old(Orphans()) && old(Orphans())[x].expiresAt >= now :: old(Orphans())[x]
    {
    }

    twostate lemma ClientDropped(id: Id)
      requires old(ValidClients()) && sockets == old(sockets) && clients == old(clients) - {id}
      ensures ValidClients() && clients.Keys == old(clients.Keys) - {id}
    {
    }

    twostate lemma SocketAdded(new client: Client)
      requires old(ValidSockets()) && old(ValidClients()) && client.id !in old(sockets)
      requires forall id :: id in old(arrays) ==> id in arrays && arrays[id] == old(arrays)[id]
      requires sockets == old(sockets)[client.id := client] && clients == old(clients)[client.id := client]
      requires everyClient == old(everyClient) + {client} && Owns(client.buffer)
      requires forall c :: c in old(everyClient) ==> unchanged(c)
      ensures ValidSockets() && ValidClients() && clients.Keys == old(clients.Keys) + {client.id}
      ensures SocketValues() == old(SocketValues())[client.id := client.Value()]
    {
    }

    twostate lemma ArrayAdded(new buffer: EventBuffer)
      requires old(ValidArrays()) && old(ValidOrphans()) && buffer.owner !in old(arrays)
      requires arrays == old(arrays)[buffer.owner := buffer] && everyArray == old(everyArray) + {buffer}
      requires orphanedSessions == old(orphanedSessions)
      requires forall b :: b in old(everyArray) ==> unchanged(b)
      ensures ValidArrays() && ValidOrphans()
      ensures Logs() == old(Logs())[buffer.owner := buffer.AsLog()] && Orphans() == old(Orphans())
    {
    }

    constructor ()
      ensures Valid() && Abstract() == EMPTY
    {
      clients := map[];
      userConnections := map[];
      orphanedSessions := map[];
      presence := [];
      sockets := map[];
      arrays := map[];
      everyClient := {};
      everyArray := {};
    }

    method Connect(id: Id, amount: nat) returns (client: Client)
      requires Valid() && id !in sockets && id !in arrays
      modifies this
      ensures Valid() && fresh(client) && client.id == id && Knows(client)
      ensures Abstract() == AfterConnect(old(Abstract()), id, amount)
    {
      hide ValidSockets, ValidArrays, ValidOrphans, ValidClients, SocketValues, Logs, Orphans;
      hide Send, NewSocket;
      client := new Client(id);
      clients := clients[id := client];
      sockets := sockets[id := client];
      arrays := arrays[id := client.buffer];
      everyClient := everyClient + {client};
      everyArray := everyArray + {client.buffer};
      client.SendRaw(Hello(id), amount);
      SocketAdded(client);
      ArrayAdded(client.buffer);
    }

    method Register(client: Client, user: User)
      requires Valid() && Knows(client)
      modifies this`userConnections, this`presence, client
      ensures Valid() && Knows(client) && client.buffer == old(client.buffer)
      ensures Abstract() == AfterIdentify(old(Abstract()), client.id, user)
    {
      hide ValidSockets, ValidArrays, ValidOrphans, ValidClients, SocketValues, Logs, Orphans;
      LookUp(client);
      client.userId := Some(user);
      client.identified := true;
      var others := if user in userConnections then userConnections[user] else {};
      userConnections := userConnections[user := others + {client.id}];
      presence := presence + [MarkConnected(user)];
      ClientStepped(client);
    }

    /** IDENTIFY behind the session check; the READY follows as a dispatch. */
    method Identify(client: Client, user: User)
      requires Valid() && Knows(client)
      modifies this`userConnections, this`presence, client
      ensures Valid() && Knows(client)
      ensures Abstract() == AfterIdentify(old(Abstract()), client.id, user)
    {
      Register(client, user);
    }

    method Dispatch(client: Client, event: Event, amount: nat)
      requires Valid() && Knows(client)
      modifies client, client.buffer
      ensures Valid() && Knows(client)
      ensures Abstract() == AfterDispatch(old(Abstract()), client.id, event, amount)
    {
      hide ValidSockets, ValidArrays, ValidOrphans, ValidClients, SocketValues, Logs, Orphans;
      LookUp(client);
      client.SendDispatch(event, amount);
      ClientStepped(client);
      ArrayStepped(client.buffer);
    }

    method Reply(client: Client, frame: Frame, amount: nat)
      requires Valid() && Knows(client)
      modifies client
      ensures Valid() && Knows(client)
      ensures Abstract() == AfterReply(old(Abstract()), client.id, frame, amount)
    {
      hide ValidSockets, ValidArrays, ValidOrphans, ValidClients, SocketValues, Logs, Orphans;
      LookUp(client);
      client.SendRaw(frame, amount);
      ClientStepped(client);
    }

    /** The client takes the orphan's array over and gets what it holds behind `lastSeq`. */
    method Adopt(client: Client, orphan: OrphanedSession, lastSeq: nat, amounts: seq<nat>)
      requires Valid() && Knows(client) && Owns(orphan.buffer)
      modifies client
      ensures Valid() && Knows(client)
      ensures var c := old(client.Value());
              var items := After(orphan.buffer.items, lastSeq);
              Abstract() == old(Abstract()).(sockets :=
                old(Abstract()).sockets[client.id := SendAll(Adopted(c, AsOrphan(orphan), lastSeq), items, amounts)])
    {
      hide ValidSockets, ValidArrays, ValidOrphans, ValidClients, SocketValues, Logs, Orphans;
      LookUp(client);
      client.lastNumber := orphan.lastNumber;
      client.buffer := orphan.buffer;
      client.bufferFloor := orphan.bufferFloor;
      client.resumedAt := Min(lastSeq, orphan.lastNumber);
      var replayable := After(orphan.buffer.items, lastSeq);
      client.SendItems(replayable, amounts);
      ClientStepped(client);
    }

    /** RESUME behind the session check. Without a live orphan a READY is due. */
    method Resume(client: Client, user: User, sessionId: Id, lastSeq: nat, now: int, amounts: seq<nat>)
      returns (readyDue: bool)
      requires Valid() && Knows(client)
      modifies this`userConnections, this`presence, this`orphanedSessions, client
      ensures Valid() && Knows(client)
      ensures readyDue == !HasLiveOrphan(old(Abstract()), user, sessionId, now)
      ensures Abstract() == AfterResume(old(Abstract()), client.id, user, sessionId, lastSeq, now, amounts)
    {
      hide ValidSockets, ValidArrays, ValidOrphans, ValidClients, SocketValues, Logs, Orphans;
      hide Send, SendAll, Registered;
      LookUpOrphan(sessionId);
      Register(client, user);
      LookUpOrphan(sessionId);
      LookUp(client);
      if sessionId in orphanedSessions
         && orphanedSessions[sessionId].userId == user && orphanedSessions[sessionId].expiresAt > now {
        var orphan := orphanedSessions[sessionId];
        orphanedSessions := orphanedSessions - {sessionId};
        OrphanDropped(sessionId);
        if orphan.bufferFloor > lastSeq + 1 {
          Reply(client, BUFFER_GAP, AmountAt(amounts, 0));
        } else {
          Adopt(client, orphan, lastSeq, amounts);
        }
        return false;
      }
      return true;
    }

    method OnClose(client: Client, now: int)
      requires Valid() && Knows(client)
      modifies this`clients, this`orphanedSessions, this`userConnections, this`presence
      ensures Valid() && Knows(client)
      ensures Abstract() == AfterClose(old(Abstract()), client.id, now)
    {
      hide ValidSockets, ValidArrays, ValidOrphans, ValidClients, SocketValues, Logs, Orphans;
      hide Unregistered, WithoutClient;
      LookUp(client);
      RemoveClient(client, now);
      Unregister(client);
    }

    /** The close handler's part on the clients and orphans. */
    method RemoveClient(client: Client, now: int)
      requires Valid() && Knows(client)
      modifies this`clients, this`orphanedSessions
      ensures Valid() && Knows(client)
      ensures client.id in old(SocketValues()) && client.buffer.owner in old(Logs())
      ensures Abstract() == WithoutClient(old(Abstract()), client.id, now)
    {
      hide ValidSockets, ValidArrays, ValidOrphans, ValidClients, SocketValues, Logs, Orphans;
      LookUp(client);
      clients := clients - {client.id};
      ClientDropped(client.id);
      if client.identified && client.userId.Some? && |client.buffer.items| > 0 {
        Park(client, now);
      }
    }

    /** Keeps the client's numbering and array for a RESUME. */
    method Park(client: Client, now: int)
      requires Valid() && Knows(client) && client.userId.Some?
      modifies this`orphanedSessions
      ensures Valid()
      ensures Orphans() == old(Orphans())[client.id := Parked(client.Value(), client.userId.value, now)]
    {
      hide ValidSockets, ValidArrays, ValidOrphans, ValidClients, SocketValues, Logs, Orphans;
      LookUp(client);
      var parked := OrphanedSession(
        client.userId.value, client.lastNumber, client.buffer, client.bufferFloor, now + ORPHAN_BUFFER_TTL_MS);
      orphanedSessions := orphanedSessions[client.id := parked];
      OrphanStored(client.id, parked);
    }

    /** The close handler's part on the connection sets. */
    method Unregister(client: Client)
      requires Valid() && Knows(client)
      modifies this`userConnections, this`presence
      ensures Valid() && Abstract() == Unregistered(old(Abstract()), client.id)
    {
      hide ValidSockets, ValidArrays, ValidOrphans, ValidClients, SocketValues, Logs, Orphans;
      LookUp(client);
      if client.userId.Some? {
        var user := client.userId.value;
        if user in userConnections {
          var others := userConnections[user] - {client.id};
          userConnections := userConnections[user := others];
          if |others| == 0 {
            userConnections := userConnections - {user};
            presence := presence + [MarkDisconnected(user)];
          }
        }
      }
    }

    method SweepOrphans(now: int)
      requires Valid()
      modifies this`orphanedSessions
      ensures Valid()
      ensures Abstract() == AfterSweep(old(Abstract()), now)
    {
      hide ValidSockets, ValidArrays, ValidOrphans, ValidClients, SocketValues, Logs, Orphans;
      ghost var before := orphanedSessions;
      var pending := orphanedSessions.Keys;
      while pending != {}
        invariant pending <= orphanedSessions.Keys
        invariant forall x :: x in orphanedSessions <==> x in before && (x in pending || before[x].expiresAt >= now)
        invariant forall x :: x in orphanedSessions ==> orphanedSessions[x] == before[x]
        decreases |pending|
      {
        var sid :| sid in pending;
        if orphanedSessions[sid].expiresAt < now {
          orphanedSessions := orphanedSessions - {sid};
        }
        pending := pending - {sid};
      }
      OrphansSwept(now);
    }
  }
}
