/** What was handed to the sockets: over all connections of a session the client gets its events
    once each and in order, or learns that it cannot. */
module GatewayWire {
  import opened GatewayProtocol
  import opened GatewayRuns

  function Items(sent: seq<Frame>): seq<Numbered> {
    if sent == [] then []
    else
      var n := |sent| - 1;
      Items(sent[..n]) + if sent[n].Dispatch? then [sent[n].item] else []
  }

  /** The numbered frames on the socket are the session's events from `resumedAt` on, all of them
      unless the socket was found too slow. */
  ghost predicate OnWire(c: Socket, all: seq<Numbered>) {
    var n := |Items(c.sent)|;
    && c.resumedAt + n <= |all|
    && Items(c.sent) == all[c.resumedAt..c.resumedAt + n]
    && (c.closing || c.resumedAt + n == |all|)
  }

  /** For an open client; and for an orphan as the closed socket left it. */
  ghost predicate HolderOnWire(s: State, h: Holder)
    requires Holds(s, h)
  {
    && h.id in s.sockets
    && SocketView(s.sockets[h.id]) == Held(s, h)
    && Held(s, h).buffer in s.logs
    && OnWire(s.sockets[h.id], Pushed(s.logs[Held(s, h).buffer]))
  }

  /** Whoever holds the array has its block, and was handed its events. */
  ghost predicate WireAt(s: State, a: Id) {
    BlockAt(s, a) && forall h :: Holds(s, h) && Held(s, h).buffer == a ==> HolderOnWire(s, h)
  }

  /** A replay of `missed` continues what the socket was handed: nothing yet if something of it goes
      out, and otherwise just what would have been replayed. */
  predicate Fits(c: Socket, missed: seq<Numbered>, amounts: seq<nat>) {
    if !c.closing && missed != [] && AmountAt(amounts, 0) <= MAX_BUFFERED_BYTES then Items(c.sent) == []
    else Items(c.sent) <= missed
  }

  /** RESUME takes over the session with this array on an open socket where its replay does not fit; or
      takes over another session on the closed socket whose own orphan has this array. */
  predicate TakesOverWrongly(s: State, step: Step, a: Id) {
    && step.Resume? && step.id in s.sockets && OrphansHaveLogs(s)
    && Adopts(s, step.user, step.sessionId, step.lastSeq, step.now)
    && if step.id in s.open then
         s.orphans[step.sessionId].buffer == a
         && !Fits(s.sockets[step.id], Missed(s, step.sessionId, step.lastSeq), step.amounts)
       else step.id in s.orphans && step.id != step.sessionId && s.orphans[step.id].buffer == a
  }

  // ----- sends -----

  lemma ItemsPush(sent: seq<Frame>, frame: Frame)
    ensures Items(sent + [frame]) == Items(sent) + if frame.Dispatch? then [frame.item] else []
  {
    assert (sent + [frame])[..|sent|] == sent;
  }

  lemma {:induction false} ItemsOfFrames(sent: seq<Frame>, items: seq<Numbered>)
    ensures Items(sent + Frames(items)) == Items(sent) + items
  {
    if items == [] {
      assert sent + Frames(items) == sent;
    } else {
      var n := |items| - 1;
      ItemsOfFrames(sent, items[..n]);
      assert sent + Frames(items) == sent + Frames(items[..n]) + [Dispatch(items[n])];
      ItemsPush(sent + Frames(items[..n]), Dispatch(items[n]));
      assert Items(sent) + items[..n] + [items[n]] == Items(sent) + items;
    }
  }

  lemma ReplyOnWire(c: Socket, all: seq<Numbered>, frame: Frame, amount: nat)
    requires OnWire(c, all) && !frame.Dispatch?
    ensures OnWire(Send(c, frame, amount), all)
  {
    ItemsPush(c.sent, frame);
  }

  lemma DispatchOnWire(c: Socket, log: Log, event: Event, amount: nat)
    requires OnWire(c, Pushed(log))
    ensures OnWire(Dispatched(c, log, event, amount), Pushed(Appended(log, NextItem(c, event))))
  {
    hide Items, Pushed, Appended, FloorAfter;
    var item := NextItem(c, event);
    PushedAppended(log, item);
    ItemsPush(c.sent, Dispatch(item));
    var all, r, n := Pushed(log), c.resumedAt, |Items(c.sent)|;
    assert (all + [item])[r..r + n] == all[r..r + n];
    if r + n == |all| {
      assert (all + [item])[r..r + n + 1] == all[r..r + n] + [item];
    }
  }

  lemma PrefixOnWire(c: Socket, all: seq<Numbered>, k: nat)
    requires Items(c.sent) == [] && c.resumedAt + k <= |all|
    requires c.closing || c.resumedAt + k == |all|
    ensures OnWire(c.(sent := c.sent + Frames(all[c.resumedAt..c.resumedAt + k])), all)
  {
    var part := all[c.resumedAt..c.resumedAt + k];
    ItemsOfFrames(c.sent, part);
    assert [] + part == part;
  }

  /** A fresh socket that replays the session from `resumedAt`. */
  lemma ReplayOnWire(c: Socket, all: seq<Numbered>, amounts: seq<nat>)
    requires Items(c.sent) == [] && c.resumedAt <= |all|
    ensures OnWire(SendAll(c, all[c.resumedAt..], amounts), all)
  {
    hide OnWire, SendAll, Items, Frames;
    var r, missed := c.resumedAt, all[c.resumedAt..];
    if c.closing {
      ReplayWhenClosing(c, missed, amounts);
      PrefixOnWire(c, all, 0);
      assert all[r..r + 0] == [];
      assert c.sent + Frames([]) == c.sent by { NoFrames(); }
    } else {
      ReplayIsPrefix(c, missed, amounts);
      var k := Passed(amounts, |missed|);
      assert missed[..k] == all[r..r + k];
      PrefixOnWire(c.(closing := k < |missed|), all, k);
    }
  }

  lemma NoFrames()
    ensures Frames([]) == []
  {
  }

  /** Where nothing more is sent, what was sent must have been the session's. */
  lemma NothingSentOnWireIff(c: Socket, all: seq<Numbered>)
    requires c.resumedAt <= |all| && (c.closing || c.resumedAt == |all|)
    ensures OnWire(c, all) <==> Items(c.sent) <= all[c.resumedAt..]
  {
    hide Items;
    var n := |Items(c.sent)|;
    if c.resumedAt + n <= |all| {
      assert all[c.resumedAt..][..n] == all[c.resumedAt..c.resumedAt + n];
    }
  }

  /** Behind numbered events of another session the replay, if something of it goes out, is no part
      of the session any more. */
  lemma ReplayBehindOthers(c: Socket, all: seq<Numbered>, amounts: seq<nat>)
    requires !c.closing && Items(c.sent) != [] && c.resumedAt < |all| && AmountAt(amounts, 0) <= MAX_BUFFERED_BYTES
    requires forall i :: 0 <= i < |all| ==> all[i].s == i + 1
    ensures !OnWire(SendAll(c, all[c.resumedAt..], amounts), all)
  {
    hide SendAll, Items;
    var missed := all[c.resumedAt..];
    var k, m := Passed(amounts, |missed|), |Items(c.sent)|;
    ReplayIsPrefix(c, missed, amounts);
    PassedIsFirstSlow(amounts, |missed|);
    ItemsOfFrames(c.sent, missed[..k]);
    var d := SendAll(c, missed, amounts);
    assert Items(d.sent)[m] == missed[0] == all[c.resumedAt];
    NotOnWire(d, all, m);
  }

  lemma NotOnWire(d: Socket, all: seq<Numbered>, m: nat)
    requires m < |Items(d.sent)| && (d.resumedAt + m < |all| ==> Items(d.sent)[m] != all[d.resumedAt + m])
    ensures !OnWire(d, all)
  {
    hide Items;
    var n := |Items(d.sent)|;
    if d.resumedAt + n <= |all| {
      assert all[d.resumedAt..d.resumedAt + n][m] == all[d.resumedAt + m];
    }
  }

  lemma NothingReplayed(c: Socket, missed: seq<Numbered>, amounts: seq<nat>)
    requires c.closing || missed == [] || AmountAt(amounts, 0) > MAX_BUFFERED_BYTES
    ensures SendAll(c, missed, amounts) == c.(closing := c.closing || missed != [])
  {
    if c.closing {
      ReplayWhenClosing(c, missed, amounts);
    } else if missed != [] {
      hide SendAll;
      ReplayIsPrefix(c, missed, amounts);
      PassedIsFirstSlow(amounts, |missed|);
      assert missed[..0] == [];
      assert c.sent + Frames([]) == c.sent by { NoFrames(); }
    }
  }

  /** A replay makes the numbered frames right exactly when it fits behind those that are there. */
  lemma ReplayOnWireIff(c: Socket, all: seq<Numbered>, amounts: seq<nat>)
    requires c.resumedAt <= |all| && forall i :: 0 <= i < |all| ==> all[i].s == i + 1
    ensures OnWire(SendAll(c, all[c.resumedAt..], amounts), all) <==> Fits(c, all[c.resumedAt..], amounts)
  {
    hide OnWire, SendAll, Items;
    var missed := all[c.resumedAt..];
    if c.closing || missed == [] || AmountAt(amounts, 0) > MAX_BUFFERED_BYTES {
      NothingReplayed(c, missed, amounts);
      NothingSentOnWireIff(SendAll(c, missed, amounts), all);
    } else if Items(c.sent) == [] {
      ReplayOnWire(c, all, amounts);
    } else {
      ReplayBehindOthers(c, all, amounts);
    }
  }

  // ----- the steps -----

  /** Whoever holds an array after the step held it before, as the same socket left it. */
  lemma WireCarries(s: State, t: State, h: Holder, g: Holder)
    requires Holds(s, g) && Holds(t, h) && HolderOnWire(s, g)
    requires h.id == g.id && Held(t, h) == Held(s, g)
    requires h.id in t.sockets && t.sockets[h.id] == s.sockets[h.id]
    requires Held(s, g).buffer in t.logs && t.logs[Held(s, g).buffer] == s.logs[Held(s, g).buffer]
    ensures HolderOnWire(t, h)
  {
  }

  lemma NewOnWire(id: Id, amount: nat)
    ensures var c := Send(NewSocket(id), Hello(id), amount);
            SocketView(c) == View(0, id, 0) && OnWire(c, Pushed(NEW_LOG))
  {
    ReplyOnWire(NewSocket(id), Pushed(NEW_LOG), Hello(id), amount);
  }

  lemma ConnectKeepsWire(s: State, id: Id, amount: nat, a: Id)
    requires WellFormed(s) && WireAt(s, a) && id !in s.sockets
    ensures WireAt(AfterConnect(s, id, amount), a)
  {
    ConnectKeepsBlock(s, id, amount, a);
    var t := AfterConnect(s, id, amount);
    NewOnWire(id, amount);
    hide OnWire, Block, BlockAt, Send, NewSocket, Pushed;
    forall h | Holds(t, h) && Held(t, h).buffer == a
      ensures HolderOnWire(t, h)
    {
      if h != ClientOf(id) {
        assert HolderOnWire(s, h);
        WireCarries(s, t, h, h);
      }
    }
  }

  lemma IdentifyKeepsWire(s: State, id: Id, user: User, a: Id)
    requires WireAt(s, a) && id in s.sockets
    ensures WireAt(AfterIdentify(s, id, user), a)
  {
    IdentifyKeepsBlock(s, id, user, a);
    var t := AfterIdentify(s, id, user);
    hide Block, BlockAt, Registered;
    forall h | Holds(t, h) && Held(t, h).buffer == a
      ensures HolderOnWire(t, h)
    {
      assert Holds(s, h) && HolderOnWire(s, h);
    }
  }

  lemma ReplyKeepsWire(s: State, id: Id, frame: Frame, amount: nat, a: Id)
    requires WireAt(s, a) && id in s.sockets && !frame.Dispatch?
    ensures WireAt(AfterReply(s, id, frame, amount), a)
  {
    ReplyKeepsBlock(s, id, frame, amount, a);
    var t := AfterReply(s, id, frame, amount);
    SendKeepsSession(s.sockets[id], frame, amount);
    hide OnWire, Block, BlockAt, Send;
    forall h | Holds(t, h) && Held(t, h).buffer == a
      ensures HolderOnWire(t, h)
    {
      assert Holds(s, h) && HolderOnWire(s, h);
      if h.id == id {
        ReplyOnWire(s.sockets[id], Pushed(s.logs[Held(s, h).buffer]), frame, amount);
      }
    }
  }

  lemma SweepKeepsWire(s: State, now: int, a: Id)
    requires WireAt(s, a)
    ensures WireAt(AfterSweep(s, now), a)
  {
    SweepKeepsBlock(s, now, a);
    var t := AfterSweep(s, now);
    hide OnWire, Block, BlockAt;
    forall h | Holds(t, h) && Held(t, h).buffer == a
      ensures HolderOnWire(t, h)
    {
      assert Holds(s, h) && HolderOnWire(s, h);
      WireCarries(s, t, h, h);
    }
  }

  lemma CloseKeepsWire(s: State, id: Id, now: int, a: Id)
    requires WellFormed(s) && WireAt(s, a) && id in s.open
    ensures WireAt(AfterClose(s, id, now), a)
  {
    CloseKeepsBlock(s, id, now, a);
    UnregisteredKeepsHolders(WithoutClient(s, id, now), id);
    hide OnWire, Block, BlockAt, Unregistered;
    var t := AfterClose(s, id, now);
    forall h | Holds(t, h) && Held(t, h).buffer == a
      ensures HolderOnWire(t, h)
    {
      var g := if h == OrphanOf(id) then ClientOf(id) else h;
      assert Holds(s, g) && HolderOnWire(s, g);
      WireCarries(s, t, h, g);
    }
  }

  lemma DispatchKeepsWire(s: State, id: Id, event: Event, amount: nat, a: Id)
    requires WellFormed(s) && WireAt(s, a) && id in s.sockets && (s.sockets[id].buffer == a ==> Unshared(s, id))
    ensures WireAt(AfterDispatch(s, id, event, amount), a)
  {
    DispatchBlockIff(s, id, event, amount, a);
    DispatchView(s, id, event, amount);
    var t := AfterDispatch(s, id, event, amount);
    hide OnWire, Block, BlockAt, Appended, FloorAfter, Dispatched;
    forall h | Holds(t, h) && Held(t, h).buffer == a
      ensures HolderOnWire(t, h)
    {
      if h == ClientOf(id) {
        assert Holds(s, h) && HolderOnWire(s, h);
        DispatchOnWire(s.sockets[id], s.logs[s.sockets[id].buffer], event, amount);
      } else {
        assert Holds(s, h) && HolderOnWire(s, h);
        WireCarries(s, t, h, h);
      }
    }
  }

  // ----- RESUME -----

  lemma SameWire(c: Socket, d: Socket, all: seq<Numbered>)
    requires OnWire(c, all) && d.sent == c.sent && d.resumedAt == c.resumedAt && d.closing == c.closing
    ensures OnWire(d, all)
  {
  }

  /** A RESUME that takes nothing over keeps every array's wire. */
  lemma RefusedKeepsWire(
    s: State, id: Id, user: User, sessionId: Id, lastSeq: nat, now: int, amounts: seq<nat>, a: Id)
    requires WellFormed(s) && WireAt(s, a) && id in s.sockets
    requires !Adopts(s, user, sessionId, lastSeq, now)
    ensures WireAt(AfterResume(s, id, user, sessionId, lastSeq, now, amounts), a)
  {
    hide OnWire, Block, BlockAt, Registered, SendAll, After, Send;
    ResumeKeepsBlock(s, id, user, sessionId, lastSeq, now, amounts, a);
    var t := AfterResume(s, id, user, sessionId, lastSeq, now, amounts);
    var c := AfterIdentify(s, id, user).sockets[id];
    ResumedSession(s, c, user, sessionId, lastSeq, now, amounts);
    forall h | Holds(t, h) && Held(t, h).buffer == a
      ensures HolderOnWire(t, h)
    {
      assert Holds(s, h) && HolderOnWire(s, h);
      if h.id == id {
        SameWire(s.sockets[id], c, Pushed(s.logs[a]));
        ReplyOnWire(c, Pushed(s.logs[a]), BUFFER_GAP, AmountAt(amounts, 0));
      } else {
        WireCarries(s, t, h, h);
      }
    }
  }

  lemma ResumedReplays(s: State, c: Socket, user: User, sessionId: Id, lastSeq: nat, now: int, amounts: seq<nat>)
    requires OrphanHolds(s, sessionId) && Adopts(s, user, sessionId, lastSeq, now)
    ensures var o := s.orphans[sessionId];
            var all := Pushed(s.logs[o.buffer]);
            var d := Adopted(c, o, lastSeq);
            && d.resumedAt <= |all| && Missed(s, sessionId, lastSeq) == all[d.resumedAt..]
            && (forall i :: 0 <= i < |all| ==> all[i].s == i + 1)
            && Resumed(s, c, user, sessionId, lastSeq, now, amounts) ==
               SendAll(d, Missed(s, sessionId, lastSeq), amounts)
  {
    hide SendAll, After;
    OrphanBlock(s, sessionId);
    ReplayIsMissed(s, sessionId, lastSeq);
  }

  /** The socket that took the session over is right exactly when the replay fits. */
  lemma ResumedOnWireIff(s: State, c: Socket, user: User, sessionId: Id, lastSeq: nat, now: int, amounts: seq<nat>)
    requires OrphanHolds(s, sessionId) && Adopts(s, user, sessionId, lastSeq, now)
    ensures OnWire(Resumed(s, c, user, sessionId, lastSeq, now, amounts), Pushed(s.logs[s.orphans[sessionId].buffer])) <==>
            Fits(c, Missed(s, sessionId, lastSeq), amounts)
  {
    hide OnWire, Resumed, SendAll, Items, Missed;
    ResumedReplays(s, c, user, sessionId, lastSeq, now, amounts);
    var o := s.orphans[sessionId];
    ReplayOnWireIff(Adopted(c, o, lastSeq), Pushed(s.logs[o.buffer]), amounts);
  }

  /** What others than the resuming connection hold is as before. */
  lemma TakeoverCarries(
    s: State, id: Id, user: User, sessionId: Id, lastSeq: nat, now: int, amounts: seq<nat>, h: Holder)
    requires WellFormed(s) && id in s.sockets && h.id != id
    requires Holds(AfterResume(s, id, user, sessionId, lastSeq, now, amounts), h)
    requires Holds(s, h) ==> HolderOnWire(s, h)
    ensures Holds(s, h) && Held(AfterResume(s, id, user, sessionId, lastSeq, now, amounts), h) == Held(s, h)
    ensures HolderOnWire(AfterResume(s, id, user, sessionId, lastSeq, now, amounts), h)
  {
    hide OnWire, Resumed, Registered;
    WireCarries(s, AfterResume(s, id, user, sessionId, lastSeq, now, amounts), h, h);
  }

  lemma OpenTakeoverWireIff(
    s: State, id: Id, user: User, sessionId: Id, lastSeq: nat, now: int, amounts: seq<nat>, a: Id)
    requires WellFormed(s) && WireAt(s, a) && id in s.sockets && id in s.open
    requires Adopts(s, user, sessionId, lastSeq, now)
    ensures WireAt(AfterResume(s, id, user, sessionId, lastSeq, now, amounts), a) <==>
            !TakesOverWrongly(s, Resume(id, user, sessionId, lastSeq, now, amounts), a)
  {
    hide OnWire, Block, BlockAt, Registered, Resumed, Fits, Missed;
    ResumeKeepsBlock(s, id, user, sessionId, lastSeq, now, amounts, a);
    var t := AfterResume(s, id, user, sessionId, lastSeq, now, amounts);
    var c := AfterIdentify(s, id, user).sockets[id];
    var o := s.orphans[sessionId];
    ResumedSession(s, c, user, sessionId, lastSeq, now, amounts);
    forall h | Holds(t, h) && Held(t, h).buffer == a && h.id != id
      ensures HolderOnWire(t, h)
    {
      assert Holds(s, h) ==> Held(s, h) == Held(t, h);
      TakeoverCarries(s, id, user, sessionId, lastSeq, now, amounts, h);
    }
    var h := ClientOf(id);
    assert Holds(t, h) && Held(t, h) == View(o.lastNumber, o.buffer, o.bufferFloor) && OrphanOf(id) != h;
    if o.buffer == a {
      ResumedOnWireIff(s, c, user, sessionId, lastSeq, now, amounts);
      assert Fits(c, Missed(s, sessionId, lastSeq), amounts) <==>
             Fits(s.sockets[id], Missed(s, sessionId, lastSeq), amounts) by { SameFits(c, s.sockets[id]); }
    }
  }

  lemma SameFits(c: Socket, d: Socket)
    requires c.sent == d.sent && c.closing == d.closing
    ensures forall missed, amounts :: Fits(c, missed, amounts) <==> Fits(d, missed, amounts)
  {
  }

  lemma ClosedTakeoverWireIff(
    s: State, id: Id, user: User, sessionId: Id, lastSeq: nat, now: int, amounts: seq<nat>, a: Id)
    requires WellFormed(s) && WireAt(s, a) && id in s.sockets && id !in s.open
    requires Adopts(s, user, sessionId, lastSeq, now)
    ensures WireAt(AfterResume(s, id, user, sessionId, lastSeq, now, amounts), a) <==>
            !TakesOverWrongly(s, Resume(id, user, sessionId, lastSeq, now, amounts), a)
  {
    hide OnWire, Block, Registered, Resumed, Fits, Missed;
    ResumeKeepsBlock(s, id, user, sessionId, lastSeq, now, amounts, a);
    var t := AfterResume(s, id, user, sessionId, lastSeq, now, amounts);
    var o := s.orphans[sessionId];
    ResumedSession(s, AfterIdentify(s, id, user).sockets[id], user, sessionId, lastSeq, now, amounts);
    forall h | Holds(t, h) && Held(t, h).buffer == a && h.id != id
      ensures HolderOnWire(t, h)
    {
      assert Holds(s, h) ==> Held(s, h) == Held(t, h);
      TakeoverCarries(s, id, user, sessionId, lastSeq, now, amounts, h);
    }
    var h := OrphanOf(id);
    if id in s.orphans && id != sessionId && s.orphans[id].buffer == a {
      assert Holds(s, h) && Holds(t, h) && Holds(s, OrphanOf(sessionId)) && h != OrphanOf(sessionId);
      assert Held(s, OrphanOf(sessionId)).buffer != a;
      assert !HolderOnWire(t, h);
    }
  }

  // ----- runs -----

  /** A step keeps the wire of an array right exactly when it is no late dispatch into the array and no
      takeover that does not fit. */
  lemma StepWireIff(s: State, step: Step, a: Id)
    requires WellFormed(s) && Enabled(s, step) && WireAt(s, a)
    ensures WireAt(Next(s, step), a) <==> !LateInto(s, step, a) && !TakesOverWrongly(s, step, a)
  {
    if LateInto(s, step, a) {
      StepBlockIff(s, step, a);
    } else {
      hide WireAt, Unshared, TakesOverWrongly;
      match step
      case Connect(id, amount) => ConnectKeepsWire(s, id, amount, a);
      case Identify(id, user) => IdentifyKeepsWire(s, id, user, a);
      case Resume(id, user, sessionId, lastSeq, now, amounts) =>
        ResumeWireIff(s, id, user, sessionId, lastSeq, now, amounts, a);
      case SendDispatch(id, event, amount) => DispatchKeepsWire(s, id, event, amount, a);
      case Reply(id, frame, amount) => ReplyKeepsWire(s, id, frame, amount, a);
      case Close(id, now) => CloseKeepsWire(s, id, now, a);
      case Sweep(now) => SweepKeepsWire(s, now, a);
    }
  }

  lemma ResumeWireIff(s: State, id: Id, user: User, sessionId: Id, lastSeq: nat, now: int, amounts: seq<nat>, a: Id)
    requires WellFormed(s) && WireAt(s, a) && id in s.sockets
    ensures WireAt(AfterResume(s, id, user, sessionId, lastSeq, now, amounts), a) <==>
            !TakesOverWrongly(s, Resume(id, user, sessionId, lastSeq, now, amounts), a)
  {
    if !Adopts(s, user, sessionId, lastSeq, now) {
      RefusedKeepsWire(s, id, user, sessionId, lastSeq, now, amounts, a);
    } else if id in s.open {
      OpenTakeoverWireIff(s, id, user, sessionId, lastSeq, now, amounts, a);
    } else {
      ClosedTakeoverWireIff(s, id, user, sessionId, lastSeq, now, amounts, a);
    }
  }

  ghost predicate Orderly(steps: seq<Step>, a: Id) {
    forall i :: 0 <= i < |steps| ==>
      !LateInto(Run(steps[..i]), steps[i], a) && !TakesOverWrongly(Run(steps[..i]), steps[i], a)
  }

  lemma {:induction false} RunKeepsWire(steps: seq<Step>, a: Id)
    requires Orderly(steps, a)
    ensures WireAt(Run(steps), a)
  {
    if steps != [] {
      var n := |steps| - 1;
      assert forall i :: 0 <= i < n ==> steps[..n][..i] == steps[..i];
      RunKeepsWire(steps[..n], a);
      RunIsWellFormed(steps[..n]);
      var s := Run(steps[..n]);
      if Enabled(s, steps[n]) {
        StepWireIff(s, steps[n], a);
      }
    }
  }

  /** What an orphan's closed socket was handed is the head of what the session had for it. */
  lemma LeftOnWire(s: State, sessionId: Id)
    requires OrphanHolds(s, sessionId) && WireAt(s, s.orphans[sessionId].buffer)
    ensures sessionId in s.sockets
    ensures var left := s.sockets[sessionId];
            var o := s.orphans[sessionId];
            && left.buffer == o.buffer && o.buffer in s.logs
            && left.resumedAt + |Items(left.sent)| <= |Pushed(s.logs[o.buffer])| == o.lastNumber
            && Items(left.sent) <= Missed(s, sessionId, left.resumedAt)
  {
    assert Holds(s, OrphanOf(sessionId)) && HolderOnWire(s, OrphanOf(sessionId));
    OrphanBlock(s, sessionId);
  }

  /** A client that resumes on a socket with no numbered frame gets there what it missed. */
  lemma ResumedGetsMissed(s: State, id: Id, user: User, sessionId: Id, lastSeq: nat, now: int, amounts: seq<nat>)
    requires OrphanHolds(s, sessionId) && Adopts(s, user, sessionId, lastSeq, now)
    requires id in s.sockets && Items(s.sockets[id].sent) == []
    ensures var d := AfterResume(s, id, user, sessionId, lastSeq, now, amounts).sockets[id];
            var missed := Missed(s, sessionId, lastSeq);
            Items(d.sent) <= missed && (d.closing || Items(d.sent) == missed)
  {
    hide Items, Resumed, SendAll;
    var c := AfterIdentify(s, id, user).sockets[id];
    ResumedReplays(s, c, user, sessionId, lastSeq, now, amounts);
    ReplayOnWire(Adopted(c, s.orphans[sessionId], lastSeq), Pushed(s.logs[s.orphans[sessionId].buffer]), amounts);
    SendAllKeepsSession(Adopted(c, s.orphans[sessionId], lastSeq), Missed(s, sessionId, lastSeq), amounts);
  }

  /** A client that got the first `received` numbered events of its old connection and resumes
      behind them has then, on both connections together, the session's events in order without a
      loss or a repetition; all of them unless the new socket was too slow. */
  lemma SessionContinues(
    s: State, id: Id, user: User, sessionId: Id, received: nat, lastSeq: nat, now: int, amounts: seq<nat>)
    requires OrphanHolds(s, sessionId) && WireAt(s, s.orphans[sessionId].buffer)
    requires Adopts(s, user, sessionId, lastSeq, now) && sessionId in s.sockets
    requires id in s.sockets && Items(s.sockets[id].sent) == []
    requires received <= |Items(s.sockets[sessionId].sent)|
    requires lastSeq == s.sockets[sessionId].resumedAt + received
    ensures var left := s.sockets[sessionId];
            var d := AfterResume(s, id, user, sessionId, lastSeq, now, amounts).sockets[id];
            var due := Missed(s, sessionId, left.resumedAt);
            var got := Items(left.sent)[..received] + Items(d.sent);
            got <= due && (d.closing || got == due)
  {
    hide AfterResume, Items, Pushed, WireAt;
    LeftOnWire(s, sessionId);
    ResumedGetsMissed(s, id, user, sessionId, lastSeq, now, amounts);
  }
}
