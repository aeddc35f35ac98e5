/** The gateway's session protocol as a state machine. One step is one stretch of code without an
    `await`; the class in module Gateway implements the steps.

    Event buffers are shared by reference: an orphaned session points at the array of its closed
    client, and a client that resumes takes that same array over. Arrays are therefore named, after
    the connection that created them, and clients and orphans hold names. */
module GatewayProtocol {
  import opened Wrappers

  type Id = nat
  type User = string

  const BUFFER_MAX: nat := 256
  const MAX_BUFFERED_BYTES: nat := 1024 * 1024
  const ORPHAN_BUFFER_TTL_MS: nat := 30_000

  datatype Event = Event(name: string, data: string)

  datatype Numbered = Numbered(s: nat, event: Event)

  datatype Frame =
    | Hello(sessionId: Id)
    | Dispatch(item: Numbered)
    | HeartbeatAck
    | InvalidSession(reason: Reason)

  datatype Reason = BufferGap | Unauthorized

  /** An event array: what it holds, and what was shifted out at its front. */
  datatype Log = Log(evicted: seq<Numbered>, items: seq<Numbered>)

  /** A connection, open or closed. `sent` is what was handed to the socket, and `resumedAt` is the
      number of session events that were not to be sent on this socket. */
  datatype Socket = Socket(
    userId: Option<User>,
    identified: bool,
    closing: bool,
    lastNumber: nat,
    buffer: Id,
    bufferFloor: nat,
    resumedAt: nat,
    sent: seq<Frame>)

  datatype Orphan = Orphan(userId: User, lastNumber: nat, buffer: Id, bufferFloor: nat, expiresAt: int)

  datatype PresenceCall = MarkConnected(user: User) | MarkDisconnected(user: User)

  datatype State = State(
    sockets: map<Id, Socket>,
    open: set<Id>,
    logs: map<Id, Log>,
    orphans: map<Id, Orphan>,
    userConnections: map<User, set<Id>>,
    presence: seq<PresenceCall>)

  // ----- sending -----

  function Pushed(log: Log): seq<Numbered> {
    log.evicted + log.items
  }

  function Appended(log: Log, item: Numbered): Log {
    var all := log.items + [item];
    if |all| > BUFFER_MAX then Log(log.evicted + [all[0]], all[1..]) else Log(log.evicted, all)
  }

  function FloorAfter(log: Log, floor: nat, item: Numbered): nat {
    var all := log.items + [item];
    if |all| > BUFFER_MAX then all[0].s + 1 else if |all| == 1 then item.s else floor
  }

  /** `sendRaw`, when the socket reports `amount` bytes not yet sent. */
  function Send(c: Socket, frame: Frame, amount: nat): Socket {
    if c.closing then c
    else if amount > MAX_BUFFERED_BYTES then c.(closing := true)
    else c.(sent := c.sent + [frame])
  }

  /** What the socket reports at the k-th send of a step. */
  function AmountAt(amounts: seq<nat>, k: nat): nat {
    if k < |amounts| then amounts[k] else 0
  }

  function SendAll(c: Socket, items: seq<Numbered>, amounts: seq<nat>): Socket {
    if items == [] then c
    else
      var n := |items| - 1;
      Send(SendAll(c, items[..n], amounts), Dispatch(items[n]), AmountAt(amounts, n))
  }

  function NextItem(c: Socket, event: Event): Numbered {
    Numbered(c.lastNumber + 1, event)
  }

  function Dispatched(c: Socket, log: Log, event: Event, amount: nat): Socket {
    var item := NextItem(c, event);
    Send(c.(lastNumber := item.s, bufferFloor := FloorAfter(log, c.bufferFloor, item)), Dispatch(item), amount)
  }

  // ----- the steps -----

  datatype Step =
    | Connect(id: Id, amount: nat)
    | Identify(id: Id, user: User)
    | Resume(id: Id, user: User, sessionId: Id, lastSeq: nat, now: int, amounts: seq<nat>)
    | SendDispatch(id: Id, event: Event, amount: nat)
    | Reply(id: Id, frame: Frame, amount: nat)
    | Close(id: Id, now: int)
    | Sweep(now: int)

  const NEW_LOG: Log := Log([], [])

  function NewSocket(id: Id): Socket {
    Socket(None, false, false, 0, id, 0, 0, [])
  }

  function AfterConnect(s: State, id: Id, amount: nat): State {
    s.(sockets := s.sockets[id := Send(NewSocket(id), Hello(id), amount)],
       open := s.open + {id},
       logs := s.logs[id := NEW_LOG])
  }

  function Registered(connections: map<User, set<Id>>, user: User, id: Id): map<User, set<Id>> {
    connections[user := (if user in connections then connections[user] else {}) + {id}]
  }

  function AfterIdentify(s: State, id: Id, user: User): State
    requires id in s.sockets
  {
    s.(sockets := s.sockets[id := s.sockets[id].(userId := Some(user), identified := true)],
       userConnections := Registered(s.userConnections, user, id),
       presence := s.presence + [MarkConnected(user)])
  }

  predicate HasLiveOrphan(s: State, user: User, sessionId: Id, now: int) {
    && sessionId in s.orphans
    && s.orphans[sessionId].userId == user
    && s.orphans[sessionId].expiresAt > now
  }

  function After(items: seq<Numbered>, lastSeq: nat): seq<Numbered> {
    if items == [] then []
    else
      var n := |items| - 1;
      After(items[..n], lastSeq) + if items[n].s > lastSeq then [items[n]] else []
  }

  function Min(a: nat, b: nat): nat {
    if a < b then a else b
  }

  /** The socket takes over the orphan's numbering and array. */
  function Adopted(c: Socket, o: Orphan, lastSeq: nat): Socket {
    c.(lastNumber := o.lastNumber, buffer := o.buffer, bufferFloor := o.bufferFloor,
       resumedAt := Min(lastSeq, o.lastNumber))
  }

  const BUFFER_GAP: Frame := InvalidSession(BufferGap)

  /** RESUME finds a live orphan and no gap. */
  predicate Adopts(s: State, user: User, sessionId: Id, lastSeq: nat, now: int) {
    HasLiveOrphan(s, user, sessionId, now) && s.orphans[sessionId].bufferFloor <= lastSeq + 1
  }

  /** The resuming socket at the end of the step; `c` is the socket just registered. */
  function Resumed(s: State, c: Socket, user: User, sessionId: Id, lastSeq: nat, now: int, amounts: seq<nat>): Socket
    requires OrphansHaveLogs(s)
  {
    if !HasLiveOrphan(s, user, sessionId, now) then c
    else if !Adopts(s, user, sessionId, lastSeq, now) then Send(c, BUFFER_GAP, AmountAt(amounts, 0))
    else
      var o := s.orphans[sessionId];
      SendAll(Adopted(c, o, lastSeq), After(s.logs[o.buffer].items, lastSeq), amounts)
  }

  predicate OrphansHaveLogs(s: State) {
    forall x {:trigger s.orphans[x].buffer} :: x in s.orphans ==> s.orphans[x].buffer in s.logs
  }

  function OrphansLeft(s: State, user: User, sessionId: Id, now: int): map<Id, Orphan> {
    if HasLiveOrphan(s, user, sessionId, now) then s.orphans - {sessionId} else s.orphans
  }

  /** RESUME behind the session check. Without a live orphan a READY follows as a later step. */
  function AfterResume(s: State, id: Id, user: User, sessionId: Id, lastSeq: nat, now: int, amounts: seq<nat>): State
    requires id in s.sockets
    requires OrphansHaveLogs(s)
  {
    var t := AfterIdentify(s, id, user);
    t.(sockets := t.sockets[id := Resumed(s, t.sockets[id], user, sessionId, lastSeq, now, amounts)],
       orphans := OrphansLeft(s, user, sessionId, now))
  }

  function AfterDispatch(s: State, id: Id, event: Event, amount: nat): State
    requires id in s.sockets && s.sockets[id].buffer in s.logs
  {
    var c := s.sockets[id];
    var log := s.logs[c.buffer];
    s.(sockets := s.sockets[id := Dispatched(c, log, event, amount)],
       logs := s.logs[c.buffer := Appended(log, NextItem(c, event))])
  }

  function AfterReply(s: State, id: Id, frame: Frame, amount: nat): State
    requires id in s.sockets
  {
    s.(sockets := s.sockets[id := Send(s.sockets[id], frame, amount)])
  }

  predicate LeavesOrphan(c: Socket, log: Log) {
    c.identified && c.userId.Some? && |log.items| > 0
  }

  /** The close handler's part on the connection sets. */
  function Unregistered(s: State, id: Id): State
    requires id in s.sockets
  {
    match s.sockets[id].userId
    case None => s
    case Some(user) =>
      if user !in s.userConnections then s
      else
        var left := s.userConnections[user] - {id};
        if left == {} then
          s.(userConnections := s.userConnections - {user}, presence := s.presence + [MarkDisconnected(user)])
        else s.(userConnections := s.userConnections[user := left])
  }

  function Parked(c: Socket, user: User, now: int): Orphan {
    Orphan(user, c.lastNumber, c.buffer, c.bufferFloor, now + ORPHAN_BUFFER_TTL_MS)
  }

  /** The close handler's part on the clients and orphans. */
  function WithoutClient(s: State, id: Id, now: int): State
    requires id in s.sockets && s.sockets[id].buffer in s.logs
  {
    var c := s.sockets[id];
    s.(open := s.open - {id},
       orphans := if LeavesOrphan(c, s.logs[c.buffer]) then s.orphans[id := Parked(c, c.userId.value, now)] else s.orphans)
  }

  function AfterClose(s: State, id: Id, now: int): State
    requires id in s.sockets && s.sockets[id].buffer in s.logs
  {
    Unregistered(WithoutClient(s, id, now), id)
  }

  function AfterSweep(s: State, now: int): State {
    s.(orphans := map x | x in s.orphans && s.orphans[x].expiresAt >= now :: s.orphans[x])
  }

  /** Every name in the state has its object; a socket has a user once it is identified. */
  ghost predicate WellFormed(s: State) {
    && (forall id :: id in s.open ==> id in s.sockets)
    && (forall id {:trigger id in s.logs} :: id in s.logs ==> id in s.sockets)
    && (forall id {:trigger s.sockets[id].buffer} :: id in s.sockets ==> s.sockets[id].buffer in s.logs)
    && (forall id {:trigger s.sockets[id].identified} ::
          id in s.sockets ==> (s.sockets[id].identified <==> s.sockets[id].userId.Some?))
    && (forall x {:trigger x in s.orphans} :: x in s.orphans ==> x in s.sockets && x !in s.open)
    && OrphansHaveLogs(s)
  }

  /** A connection id is new, a socket closes once, and all other steps are about a connection
      that was made, whether it is still open or not. Replies carry no number. */
  predicate Enabled(s: State, step: Step) {
    match step
    case Connect(id, _) => id !in s.sockets
    case Close(id, _) => id in s.open
    case Sweep(_) => true
    case Reply(id, frame, _) => id in s.sockets && !frame.Dispatch?
    case _ => step.id in s.sockets
  }

  function Next(s: State, step: Step): State
    requires WellFormed(s) && Enabled(s, step)
  {
    match step
    case Connect(id, amount) => AfterConnect(s, id, amount)
    case Identify(id, user) => AfterIdentify(s, id, user)
    case Resume(id, user, sessionId, lastSeq, now, amounts) =>
      AfterResume(s, id, user, sessionId, lastSeq, now, amounts)
    case SendDispatch(id, event, amount) => AfterDispatch(s, id, event, amount)
    case Reply(id, frame, amount) => AfterReply(s, id, frame, amount)
    case Close(id, now) => AfterClose(s, id, now)
    case Sweep(now) => AfterSweep(s, now)
  }

  const EMPTY: State := State(map[], {}, map[], map[], map[], [])

  // ----- sends touch nothing but `closing` and `sent` -----

  predicate SameSession(a: Socket, b: Socket) {
    && a.userId == b.userId && a.identified == b.identified && a.lastNumber == b.lastNumber
    && a.buffer == b.buffer && a.bufferFloor == b.bufferFloor && a.resumedAt == b.resumedAt
  }

  lemma {:induction false} SendAllKeepsSession(c: Socket, items: seq<Numbered>, amounts: seq<nat>)
    ensures SameSession(SendAll(c, items, amounts), c)
  {
    if items != [] {
      SendAllKeepsSession(c, items[..|items| - 1], amounts);
    }
  }

  /** How many of n sends go out: those before the first one at which the socket is too slow. */
  function Passed(amounts: seq<nat>, n: nat): (r: nat)
    ensures r <= n
  {
    if n == 0 then 0
    else
      var k := Passed(amounts, n - 1);
      if k == n - 1 && AmountAt(amounts, n - 1) <= MAX_BUFFERED_BYTES then n else k
  }

  lemma {:induction false} PassedIsFirstSlow(amounts: seq<nat>, n: nat)
    ensures forall k :: 0 <= k < Passed(amounts, n) ==> AmountAt(amounts, k) <= 1_048_576
    ensures Passed(amounts, n) < n ==> AmountAt(amounts, Passed(amounts, n)) > 1_048_576
  {
    if n > 0 {
      PassedIsFirstSlow(amounts, n - 1);
    }
  }

  function Frames(items: seq<Numbered>): seq<Frame> {
    seq(|items|, i requires 0 <= i < |items| => Dispatch(items[i]))
  }

  /** The replay loop hands over the events up to the first send that finds the socket too slow. */
  lemma {:induction false} ReplayIsPrefix(c: Socket, items: seq<Numbered>, amounts: seq<nat>)
    requires !c.closing
    ensures var k := Passed(amounts, |items|);
            SendAll(c, items, amounts) == c.(sent := c.sent + Frames(items[..k]), closing := k < |items|)
  {
    if items != [] {
      var n := |items| - 1;
      ReplayIsPrefix(c, items[..n], amounts);
      var k := Passed(amounts, n);
      assert items[..n][..k] == items[..k];
      if k == n {
        assert items[..n + 1] == items;
        assert Frames(items) == Frames(items[..n]) + [Dispatch(items[n])];
      }
    }
  }

  lemma {:induction false} ReplayWhenClosing(c: Socket, items: seq<Numbered>, amounts: seq<nat>)
    requires c.closing
    ensures SendAll(c, items, amounts) == c
  {
    if items != [] {
      ReplayWhenClosing(c, items[..|items| - 1], amounts);
    }
  }

  /** RESUME, without the frames it sends. */
  lemma ResumedSession(s: State, c: Socket, user: User, sessionId: Id, lastSeq: nat, now: int, amounts: seq<nat>)
    requires OrphansHaveLogs(s)
    ensures SameSession(Resumed(s, c, user, sessionId, lastSeq, now, amounts),
                        if Adopts(s, user, sessionId, lastSeq, now) then Adopted(c, s.orphans[sessionId], lastSeq) else c)
  {
    hide SendAll, After;
    if Adopts(s, user, sessionId, lastSeq, now) {
      var o := s.orphans[sessionId];
      SendAllKeepsSession(Adopted(c, o, lastSeq), After(s.logs[o.buffer].items, lastSeq), amounts);
    }
  }

  // ----- every step leaves a well-formed state -----

  lemma ResumeWellFormed(s: State, id: Id, user: User, sessionId: Id, lastSeq: nat, now: int, amounts: seq<nat>)
    requires WellFormed(s) && id in s.sockets
    ensures WellFormed(AfterResume(s, id, user, sessionId, lastSeq, now, amounts))
  {
    hide Resumed, Registered;
    ResumedSession(s, AfterIdentify(s, id, user).sockets[id], user, sessionId, lastSeq, now, amounts);
  }

  lemma DispatchWellFormed(s: State, id: Id, event: Event, amount: nat)
    requires WellFormed(s) && id in s.sockets
    ensures WellFormed(AfterDispatch(s, id, event, amount))
  {
    hide Appended, FloorAfter;
  }

  lemma UnregisteredKeepsHolders(s: State, id: Id)
    requires id in s.sockets
    ensures var t := Unregistered(s, id);
            t.sockets == s.sockets && t.open == s.open && t.logs == s.logs && t.orphans == s.orphans
  {
  }

  lemma CloseWellFormed(s: State, id: Id, now: int)
    requires WellFormed(s) && id in s.open
    ensures WellFormed(AfterClose(s, id, now))
  {
    hide Unregistered;
    UnregisteredKeepsHolders(WithoutClient(s, id, now), id);
  }

  lemma NextWellFormed(s: State, step: Step)
    requires WellFormed(s) && Enabled(s, step)
    ensures WellFormed(Next(s, step))
  {
    hide Resumed, Registered, Unregistered, Appended, FloorAfter;
    match step
    case Resume(id, user, sessionId, lastSeq, now, amounts) =>
      ResumeWellFormed(s, id, user, sessionId, lastSeq, now, amounts);
    case SendDispatch(id, event, amount) => DispatchWellFormed(s, id, event, amount);
    case Close(id, now) => CloseWellFormed(s, id, now);
    case _ =>
  }

  // ----- who holds an array: the open clients and the orphans -----

  datatype Holder = ClientOf(id: Id) | OrphanOf(id: Id)

  datatype View = View(lastNumber: nat, buffer: Id, floor: nat)

  predicate Holds(s: State, h: Holder) {
    match h
    case ClientOf(id) => id in s.open && id in s.sockets
    case OrphanOf(id) => id in s.orphans
  }

  function SocketView(c: Socket): View {
    View(c.lastNumber, c.buffer, c.bufferFloor)
  }

  function Held(s: State, h: Holder): View
    requires Holds(s, h)
  {
    match h
    case ClientOf(id) => SocketView(s.sockets[id])
    case OrphanOf(id) => var o := s.orphans[id]; View(o.lastNumber, o.buffer, o.bufferFloor)
  }

  /** The array holds the events numbered floor to lastNumber, at most BUFFER_MAX of them, and
      lacks just the ones that were evicted before. */
  ghost predicate Block(log: Log, floor: nat, lastNumber: nat) {
    var all := Pushed(log);
    && |log.items| <= BUFFER_MAX
    && (log.evicted == [] || |log.items| == BUFFER_MAX)
    && |all| == lastNumber
    && (forall i :: 0 <= i < |all| ==> all[i].s == i + 1)
    && floor == if lastNumber == 0 then 0 else |log.evicted| + 1
  }

  /** Whoever holds the array is its only holder and has its block. */
  ghost predicate BlockAt(s: State, a: Id) {
    && (forall h :: Holds(s, h) && Held(s, h).buffer == a ==>
          a in s.logs && Block(s.logs[a], Held(s, h).floor, Held(s, h).lastNumber))
    && (forall g, h :: Holds(s, g) && Holds(s, h) && Held(s, g).buffer == a && Held(s, h).buffer == a ==> g == h)
  }

  /** No one but the client itself holds the array its next event goes into. */
  ghost predicate Unshared(s: State, id: Id)
    requires id in s.sockets
  {
    forall h :: Holds(s, h) && h != ClientOf(id) ==> Held(s, h).buffer != s.sockets[id].buffer
  }

  // ----- each step keeps the block of an array, a dispatch if it does not share the array -----

  lemma SendKeepsSession(c: Socket, frame: Frame, amount: nat)
    ensures SameSession(Send(c, frame, amount), c)
  {
  }

  lemma ConnectKeepsBlock(s: State, id: Id, amount: nat, a: Id)
    requires WellFormed(s) && BlockAt(s, a) && id !in s.sockets
    ensures BlockAt(AfterConnect(s, id, amount), a)
  {
    assert Block(NEW_LOG, 0, 0);
    hide Send, Block;
    SendKeepsSession(NewSocket(id), Hello(id), amount);
    var t := AfterConnect(s, id, amount);
    forall h | Holds(t, h)
      ensures if h == ClientOf(id) then Held(t, h) == View(0, id, 0)
              else Holds(s, h) && Held(t, h) == Held(s, h) && Held(s, h).buffer in s.logs
    {
    }
    assert id !in s.logs;
  }

  lemma IdentifyKeepsBlock(s: State, id: Id, user: User, a: Id)
    requires BlockAt(s, a) && id in s.sockets
    ensures BlockAt(AfterIdentify(s, id, user), a)
  {
    hide Block, Registered;
    var t := AfterIdentify(s, id, user);
    forall h | Holds(t, h)
      ensures Holds(s, h) && Held(t, h) == Held(s, h)
    {
    }
  }

  lemma ReplyKeepsBlock(s: State, id: Id, frame: Frame, amount: nat, a: Id)
    requires BlockAt(s, a) && id in s.sockets
    ensures BlockAt(AfterReply(s, id, frame, amount), a)
  {
    hide Block, Send;
    SendKeepsSession(s.sockets[id], frame, amount);
    var t := AfterReply(s, id, frame, amount);
    forall h | Holds(t, h)
      ensures Holds(s, h) && Held(t, h) == Held(s, h)
    {
    }
  }

  lemma SweepKeepsBlock(s: State, now: int, a: Id)
    requires BlockAt(s, a)
    ensures BlockAt(AfterSweep(s, now), a)
  {
    hide Block;
    var t := AfterSweep(s, now);
    forall h | Holds(t, h)
      ensures Holds(s, h) && Held(t, h) == Held(s, h)
    {
    }
  }

  lemma CloseKeepsBlock(s: State, id: Id, now: int, a: Id)
    requires WellFormed(s) && BlockAt(s, a) && id in s.open
    ensures BlockAt(AfterClose(s, id, now), a)
  {
    hide Block, Unregistered;
    UnregisteredKeepsHolders(WithoutClient(s, id, now), id);
    var t := AfterClose(s, id, now);
    forall h | Holds(t, h)
      ensures var g := if h == OrphanOf(id) then ClientOf(id) else h;
              h != ClientOf(id) && Holds(s, g) && Held(t, h) == Held(s, g)
    {
    }
  }

  lemma ResumeKeepsBlock(
    s: State, id: Id, user: User, sessionId: Id, lastSeq: nat, now: int, amounts: seq<nat>, a: Id)
    requires WellFormed(s) && BlockAt(s, a) && id in s.sockets
    ensures BlockAt(AfterResume(s, id, user, sessionId, lastSeq, now, amounts), a)
  {
    hide Block, Resumed, Registered;
    var t := AfterResume(s, id, user, sessionId, lastSeq, now, amounts);
    ResumedSession(s, AfterIdentify(s, id, user).sockets[id], user, sessionId, lastSeq, now, amounts);
    var adopts := Adopts(s, user, sessionId, lastSeq, now);
    forall h | Holds(t, h)
      ensures var g := if adopts && h == ClientOf(id) then OrphanOf(sessionId) else h;
              Holds(s, g) && Held(t, h) == Held(s, g)
      ensures adopts ==> h != OrphanOf(sessionId)
    {
    }
  }

  lemma PushedAppended(log: Log, item: Numbered)
    ensures Pushed(Appended(log, item)) == Pushed(log) + [item]
  {
    var all := log.items + [item];
    assert all == [all[0]] + all[1..];
    assert log.evicted + [all[0]] + all[1..] == log.evicted + all;
  }

  /** A push that shifts the oldest event out once the array is full. */
  lemma AppendKeepsBlock(log: Log, floor: nat, lastNumber: nat, item: Numbered)
    requires Block(log, floor, lastNumber) && item.s == lastNumber + 1
    ensures Block(Appended(log, item), FloorAfter(log, floor, item), item.s)
  {
    PushedAppended(log, item);
    var k := |log.evicted|;
    if log.items != [] {
      assert log.items[0] == Pushed(log)[k];
    }
    hide Pushed;
    assert Block(log, floor, lastNumber);
  }

  /** What a client may rely on: the array holds just the events floor to lastNumber, in order, and no
      more than 256. */
  ghost predicate Contiguous(items: seq<Numbered>, floor: nat, lastNumber: nat) {
    && |items| <= 256
    && (forall i :: 0 <= i < |items| ==> items[i].s == floor + i)
    && lastNumber == if items == [] then 0 else floor + |items| - 1
  }

  lemma BlockIsContiguous(log: Log, floor: nat, lastNumber: nat)
    requires Block(log, floor, lastNumber)
    ensures Contiguous(log.items, floor, lastNumber)
  {
    forall i | 0 <= i < |log.items|
      ensures log.items[i] == Pushed(log)[|log.evicted| + i]
    {
    }
  }

  /** A push behind the back of another holder of the array leaves that holder without its block. */
  lemma AppendBreaksOtherBlock(log: Log, floor: nat, lastNumber: nat, item: Numbered)
    requires Contiguous(log.items, floor, lastNumber) && item.s > 0
    ensures !Contiguous(Appended(log, item).items, floor, lastNumber)
  {
    var after := Appended(log, item).items;
    if |log.items| == BUFFER_MAX {
      assert after[0] == log.items[1];
    } else {
      assert |after| == |log.items| + 1;
      if log.items == [] {
        assert after[0] == item;
      }
    }
  }

  lemma DispatchView(s: State, id: Id, event: Event, amount: nat)
    requires WellFormed(s) && id in s.sockets
    ensures var c := s.sockets[id];
            var item := NextItem(c, event);
            var log := s.logs[c.buffer];
            var t := AfterDispatch(s, id, event, amount);
            && t == s.(sockets := t.sockets, logs := s.logs[c.buffer := Appended(log, item)])
            && t.sockets == s.sockets[id := t.sockets[id]]
            && SocketView(t.sockets[id]) == View(item.s, c.buffer, FloorAfter(log, c.bufferFloor, item))
  {
  }

  lemma DispatchKeepsOwnBlock(s: State, id: Id, event: Event)
    requires Holds(s, ClientOf(id)) && BlockAt(s, s.sockets[id].buffer)
    ensures var c := s.sockets[id];
            var item := NextItem(c, event);
            && c.buffer in s.logs
            && var log := s.logs[c.buffer];
               Block(Appended(log, item), FloorAfter(log, c.bufferFloor, item), item.s)
  {
    hide Appended, FloorAfter, Block;
    var c := s.sockets[id];
    assert Held(s, ClientOf(id)) == SocketView(c);
    AppendKeepsBlock(s.logs[c.buffer], c.bufferFloor, c.lastNumber, NextItem(c, event));
  }

  lemma DispatchBreaksOther(s: State, id: Id, event: Event, h: Holder)
    requires id in s.sockets && BlockAt(s, s.sockets[id].buffer)
    requires Holds(s, h) && Held(s, h).buffer == s.sockets[id].buffer
    ensures s.sockets[id].buffer in s.logs
    ensures !Block(Appended(s.logs[s.sockets[id].buffer], NextItem(s.sockets[id], event)),
                   Held(s, h).floor, Held(s, h).lastNumber)
  {
    hide Appended, Block, Contiguous;
    var v := Held(s, h);
    var log, item := s.logs[v.buffer], NextItem(s.sockets[id], event);
    BlockIsContiguous(log, v.floor, v.lastNumber);
    AppendBreaksOtherBlock(log, v.floor, v.lastNumber, item);
    if Block(Appended(log, item), v.floor, v.lastNumber) {
      BlockIsContiguous(Appended(log, item), v.floor, v.lastNumber);
    }
  }

  /** A dispatch keeps the block of an array exactly when nobody else holds the array it goes into,
      if that is this one. */
  lemma DispatchBlockIff(s: State, id: Id, event: Event, amount: nat, a: Id)
    requires WellFormed(s) && BlockAt(s, a) && id in s.sockets
    ensures BlockAt(AfterDispatch(s, id, event, amount), a) <==> (s.sockets[id].buffer == a ==> Unshared(s, id))
  {
    hide Block, Appended, FloorAfter, AfterDispatch, WellFormed;
    assert s.sockets[id].buffer in s.logs by { WellFormedBuffer(s, id); }
    var c := s.sockets[id];
    var t := AfterDispatch(s, id, event, amount);
    DispatchView(s, id, event, amount);
    assert forall h :: Holds(t, h) <==> Holds(s, h);
    assert forall h :: Holds(s, h) && h != ClientOf(id) ==> Held(t, h) == Held(s, h);
    if c.buffer == a {
      if h :| Holds(s, h) && h != ClientOf(id) && Held(s, h).buffer == c.buffer {
        DispatchBreaksOther(s, id, event, h);
      } else if Holds(s, ClientOf(id)) {
        DispatchKeepsOwnBlock(s, id, event);
      }
    }
  }

  lemma WellFormedBuffer(s: State, id: Id)
    requires WellFormed(s) && id in s.sockets
    ensures s.sockets[id].buffer in s.logs
  {
  }

  /** An open client is the only holder of its array. */
  lemma OpenIsUnshared(s: State, id: Id)
    requires id in s.open && id in s.sockets && BlockAt(s, s.sockets[id].buffer)
    ensures Unshared(s, id)
  {
    assert Holds(s, ClientOf(id)) && Held(s, ClientOf(id)) == SocketView(s.sockets[id]);
  }
}
