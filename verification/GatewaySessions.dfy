/** Whose session a RESUME takes over, and how long a session waits for that. */
module GatewaySessions {
  import opened GatewayProtocol
  import opened GatewayRuns
  import opened Wrappers

  /** RESUME takes the session it names exactly if that waits for this very user and has not expired.
      Otherwise the socket gets neither its numbering nor its array nor any frame of it. */
  lemma ResumeTakesOwnSession(
    s: State, id: Id, user: User, sessionId: Id, lastSeq: nat, now: int, amounts: seq<nat>)
    requires WellFormed(s) && id in s.sockets
    ensures var t := AfterResume(s, id, user, sessionId, lastSeq, now, amounts);
            var own := && sessionId in s.orphans && s.orphans[sessionId].userId == user
                       && now < s.orphans[sessionId].expiresAt;
            && t.orphans == (if own then s.orphans - {sessionId} else s.orphans)
            && (!own ==> SocketView(t.sockets[id]) == SocketView(s.sockets[id]) && t.sockets[id].sent == s.sockets[id].sent)
            && t == s.(sockets := s.sockets[id := t.sockets[id]], orphans := t.orphans,
                       userConnections := t.userConnections, presence := t.presence)
            && t.sockets[id].userId == Some(user) && t.sockets[id].identified
  {
    hide SendAll, After, Registered;
    var c := AfterIdentify(s, id, user).sockets[id];
    ResumedSession(s, c, user, sessionId, lastSeq, now, amounts);
  }

  /** A new connection is open, has no user, no number and an array of its own, and was greeted unless
      its socket is too slow already. */
  lemma ConnectGreets(s: State, id: Id, amount: nat)
    requires WellFormed(s) && id !in s.sockets
    ensures var t := AfterConnect(s, id, amount);
            && t == s.(sockets := s.sockets[id := t.sockets[id]], open := s.open + {id}, logs := s.logs[id := Log([], [])])
            && var c := t.sockets[id];
               && c.userId == None && !c.identified && SocketView(c) == View(0, id, 0)
               && c.sent == (if amount <= 1_048_576 then [Hello(id)] else [])
               && (c.closing <==> amount > 1_048_576)
  {
  }

  // ----- from a close to the RESUME or the sweep -----

  /** The step takes the session over as its user, in time, or sweeps it when it has expired. */
  predicate EndsWait(step: Step, x: Id, o: Orphan) {
    || (step.Resume? && step.sessionId == x && step.user == o.userId && step.now < o.expiresAt)
    || (step.Sweep? && o.expiresAt < step.now)
  }

  /** The step closes an identified client that has events to hand back. */
  predicate Parts(s: State, step: Step, x: Id) {
    && step.Close? && step.id == x && x in s.sockets && s.sockets[x].identified
    && s.sockets[x].buffer in s.logs && s.logs[s.sockets[x].buffer].items != []
  }

  /** The session as its client left it, for thirty seconds. */
  predicate LeftBy(o: Orphan, c: Socket, now: int) {
    && c.userId == Some(o.userId) && SocketView(c) == View(o.lastNumber, o.buffer, o.bufferFloor)
    && o.expiresAt == now + 30_000
  }

  /** Sessions wait from such a close to such an end, and are not touched meanwhile. */
  lemma StepMovesSession(s: State, step: Step, x: Id)
    requires WellFormed(s) && Enabled(s, step)
    ensures var t := Next(s, step);
            && (x in t.orphans <==> (x in s.orphans && !EndsWait(step, x, s.orphans[x])) || Parts(s, step, x))
            && (x in s.orphans && x in t.orphans ==> t.orphans[x] == s.orphans[x])
            && (x !in s.orphans && x in t.orphans ==> step.Close? && LeftBy(t.orphans[x], s.sockets[x], step.now))
  {
    hide Appended, FloorAfter, Send, Registered, Resumed, Unregistered;
    match step
    case Resume(id, user, sessionId, lastSeq, now, amounts) =>
      ResumeTakesOwnSession(s, id, user, sessionId, lastSeq, now, amounts);
    case Close(id, now) =>
      UnregisteredKeepsHolders(WithoutClient(s, id, now), id);
    case _ =>
  }

  /** The k-th step closed the client of the session. */
  ghost predicate PartedAt(steps: seq<Step>, k: nat, x: Id, o: Orphan)
    requires k < |steps|
  {
    var s := Run(steps[..k]);
    && Enabled(s, steps[k]) && Parts(s, steps[k], x) && LeftBy(o, s.sockets[x], steps[k].now)
  }

  /** In every run a session that waits is just what its own client left, its user included. */
  lemma {:induction false} WaitingIsParted(steps: seq<Step>, x: Id)
    requires x in Run(steps).orphans
    ensures exists k: nat :: k < |steps| && PartedAt(steps, k, x, Run(steps).orphans[x])
  {
    hide EndsWait, Parts, LeftBy, Next, Enabled;
    var n := |steps| - 1;
    var s, step := Run(steps[..n]), steps[n];
    RunIsWellFormed(steps[..n]);
    if Enabled(s, step) {
      StepMovesSession(s, step, x);
    }
    if x in s.orphans {
      WaitingIsParted(steps[..n], x);
      var k: nat :| k < n && PartedAt(steps[..n], k, x, s.orphans[x]);
      assert steps[..n][..k] == steps[..k];
      assert PartedAt(steps, k, x, Run(steps).orphans[x]);
    } else {
      assert PartedAt(steps, n, x, Run(steps).orphans[x]);
    }
  }

  /** And it waits, as it is, until its user takes it over or a sweep finds it expired. */
  lemma {:induction false} SessionWaits(steps: seq<Step>, i: nat, x: Id)
    requires i <= |steps| && x in Run(steps[..i]).orphans
    requires forall k :: i <= k < |steps| ==> !EndsWait(steps[k], x, Run(steps[..i]).orphans[x])
    ensures x in Run(steps).orphans && Run(steps).orphans[x] == Run(steps[..i]).orphans[x]
    decreases |steps|
  {
    hide EndsWait, Parts, Next, Enabled;
    if i == |steps| {
      assert steps[..i] == steps;
    } else {
      var n := |steps| - 1;
      assert steps[..n][..i] == steps[..i];
      SessionWaits(steps[..n], i, x);
      RunIsWellFormed(steps[..n]);
      if Enabled(Run(steps[..n]), steps[n]) {
        StepMovesSession(Run(steps[..n]), steps[n], x);
      }
    }
  }

  // ----- one user for each array -----

  /** All connections that have the array, open or closed, and all sessions that wait with it are of
      the user of the connection that made it. */
  ghost predicate OwnedAt(s: State, a: Id) {
    && (forall id {:trigger s.sockets[id].buffer} :: id in s.sockets && s.sockets[id].buffer == a ==>
          a in s.sockets && s.sockets[id].userId == s.sockets[a].userId && (id != a ==> s.sockets[id].userId.Some?))
    && (forall x {:trigger s.orphans[x].buffer} :: x in s.orphans && s.orphans[x].buffer == a ==>
          a in s.sockets && s.sockets[a].userId == Some(s.orphans[x].userId))
  }

  /** A greeting gives a connection that has the array, or made it, another user than it had. */
  predicate ChangesUser(s: State, step: Step, a: Id) {
    && (step.Identify? || step.Resume?) && step.id in s.sockets && (step.id == a || s.sockets[step.id].buffer == a)
    && s.sockets[step.id].userId != None && s.sockets[step.id].userId != Some(step.user)
  }

  lemma GreetingKeepsOwner(s: State, id: Id, user: User, a: Id)
    requires OwnedAt(s, a) && id in s.sockets && !ChangesUser(s, Identify(id, user), a)
    ensures OwnedAt(AfterIdentify(s, id, user), a)
  {
    hide Registered;
  }

  lemma ResumeKeepsOwner(s: State, id: Id, user: User, sessionId: Id, lastSeq: nat, now: int, amounts: seq<nat>, a: Id)
    requires WellFormed(s) && OwnedAt(s, a) && id in s.sockets && !ChangesUser(s, Identify(id, user), a)
    ensures OwnedAt(AfterResume(s, id, user, sessionId, lastSeq, now, amounts), a)
  {
    hide Registered, Resumed;
    var u := AfterIdentify(s, id, user);
    GreetingKeepsOwner(s, id, user, a);
    ResumedSession(s, u.sockets[id], user, sessionId, lastSeq, now, amounts);
  }

  lemma StepKeepsOwner(s: State, step: Step, a: Id)
    requires WellFormed(s) && Enabled(s, step) && OwnedAt(s, a) && !ChangesUser(s, step, a)
    ensures OwnedAt(Next(s, step), a)
  {
    hide Appended, FloorAfter, Unregistered, Registered, Resumed;
    match step
    case Identify(id, user) => GreetingKeepsOwner(s, id, user, a);
    case Resume(id, user, sessionId, lastSeq, now, amounts) =>
      ResumeKeepsOwner(s, id, user, sessionId, lastSeq, now, amounts, a);
    case Close(id, now) => UnregisteredKeepsHolders(WithoutClient(s, id, now), id);
    case _ =>
  }

  ghost predicate NeverChangesUser(steps: seq<Step>, a: Id) {
    forall i :: 0 <= i < |steps| ==> !ChangesUser(Run(steps[..i]), steps[i], a)
  }

  lemma {:induction false} RunKeepsOwner(steps: seq<Step>, a: Id)
    requires NeverChangesUser(steps, a)
    ensures OwnedAt(Run(steps), a)
  {
    hide OwnedAt, ChangesUser, WellFormed, Next, Enabled;
    if steps == [] {
      NobodyOwns(a);
    } else {
      var n := |steps| - 1;
      assert forall i :: 0 <= i < n ==> steps[..n][..i] == steps[..i];
      RunKeepsOwner(steps[..n], a);
      RunIsWellFormed(steps[..n]);
      if Enabled(Run(steps[..n]), steps[n]) {
        StepKeepsOwner(Run(steps[..n]), steps[n], a);
      }
    }
  }

  lemma NobodyOwns(a: Id)
    ensures OwnedAt(EMPTY, a)
  {
  }

  // ----- whom the events were for -----

  /** For each event that went into the array, the user its client had at that moment. */
  ghost function Addressees(steps: seq<Step>, a: Id): seq<Option<User>> {
    if steps == [] then []
    else
      var n := |steps| - 1;
      Addressees(steps[..n], a) + AddresseeOf(Run(steps[..n]), steps[n], a)
  }

  ghost function AddresseeOf(s: State, step: Step, a: Id): seq<Option<User>> {
    if step.SendDispatch? && step.id in s.sockets && s.sockets[step.id].buffer == a then [s.sockets[step.id].userId] else []
  }

  ghost predicate AddressedTo(users: seq<Option<User>>, owner: Option<User>) {
    forall k :: 0 <= k < |users| ==> users[k].None? || users[k] == owner
  }

  lemma StepKeepsOwnersName(s: State, step: Step, a: Id)
    requires WellFormed(s) && Enabled(s, step) && a in s.sockets && !ChangesUser(s, step, a)
    ensures var t := Next(s, step);
            a in t.sockets && (s.sockets[a].userId.Some? ==> t.sockets[a].userId == s.sockets[a].userId)
  {
    hide Appended, FloorAfter, Unregistered, Registered, Resumed;
    match step
    case Resume(id, user, sessionId, lastSeq, now, amounts) =>
      ResumedSession(s, AfterIdentify(s, id, user).sockets[id], user, sessionId, lastSeq, now, amounts);
    case Close(id, now) => UnregisteredKeepsHolders(WithoutClient(s, id, now), id);
    case _ =>
  }

  lemma StepPushes(s: State, step: Step, a: Id)
    requires WellFormed(s) && Enabled(s, step) && a in s.logs
    ensures a in Next(s, step).logs
    ensures |Pushed(Next(s, step).logs[a])| == |Pushed(s.logs[a])| + |AddresseeOf(s, step, a)|
  {
    hide Unregistered, Registered, Resumed, Pushed, Appended, FloorAfter;
    match step
    case SendDispatch(id, event, amount) =>
      DispatchView(s, id, event, amount);
      PushedAppended(s.logs[s.sockets[id].buffer], NextItem(s.sockets[id], event));
    case Close(id, now) => UnregisteredKeepsHolders(WithoutClient(s, id, now), id);
    case _ =>
  }

  /** One addressee for each event that went in, the ones shifted out included. */
  ghost predicate Accounted(s: State, users: seq<Option<User>>, a: Id) {
    if a in s.logs then
      a in s.sockets && |users| == |Pushed(s.logs[a])| && AddressedTo(users, s.sockets[a].userId)
    else users == []
  }

  lemma StepAccounts(s: State, step: Step, users: seq<Option<User>>, a: Id)
    requires WellFormed(s) && Enabled(s, step) && OwnedAt(s, a) && !ChangesUser(s, step, a)
    requires Accounted(s, users, a)
    ensures Accounted(Next(s, step), users + AddresseeOf(s, step, a), a)
  {
    NextWellFormed(s, step);
    if a in s.logs {
      hide Next, Pushed, ChangesUser, Enabled;
      StepPushes(s, step, a);
      StepKeepsOwnersName(s, step, a);
    } else {
      NewArrayIsEmpty(s, step, a);
    }
  }

  lemma NewArrayIsEmpty(s: State, step: Step, a: Id)
    requires WellFormed(s) && Enabled(s, step) && a !in s.logs
    ensures AddresseeOf(s, step, a) == []
    ensures a in Next(s, step).logs ==> Next(s, step).logs[a] == NEW_LOG
  {
    hide Unregistered, Registered, Resumed, Pushed, Appended, FloorAfter;
    if step.Close? {
      UnregisteredKeepsHolders(WithoutClient(s, step.id, step.now), step.id);
    }
  }

  lemma NeverSoFar(steps: seq<Step>, a: Id)
    requires NeverChangesUser(steps, a) && steps != []
    ensures NeverChangesUser(steps[..|steps| - 1], a)
    ensures !ChangesUser(Run(steps[..|steps| - 1]), steps[|steps| - 1], a)
  {
    hide Run, ChangesUser;
    var n := |steps| - 1;
    assert forall i :: 0 <= i < n ==> steps[..n][..i] == steps[..i];
  }

  /** Where no connection changes its user, all events of an array were for the user who owns it. */
  lemma {:induction false} RunAccounts(steps: seq<Step>, a: Id)
    requires NeverChangesUser(steps, a)
    ensures Accounted(Run(steps), Addressees(steps, a), a)
  {
    hide NeverChangesUser, ChangesUser, OwnedAt, Accounted, AddresseeOf, WellFormed, Next, Enabled;
    if steps == [] {
      NothingAccounted(a);
    } else {
      var n := |steps| - 1;
      var s := Run(steps[..n]);
      NeverSoFar(steps, a);
      RunAccounts(steps[..n], a);
      RunKeepsOwner(steps[..n], a);
      RunIsWellFormed(steps[..n]);
      if Enabled(s, steps[n]) {
        StepAccounts(s, steps[n], Addressees(steps[..n], a), a);
      } else {
        SkippedDispatch(s, steps[n], a);
        assert Addressees(steps[..n], a) + [] == Addressees(steps[..n], a);
      }
    }
  }

  lemma NothingAccounted(a: Id)
    ensures Accounted(EMPTY, [], a)
  {
  }

  lemma SkippedDispatch(s: State, step: Step, a: Id)
    requires !Enabled(s, step)
    ensures AddresseeOf(s, step, a) == []
  {
  }

  // ----- exactly which steps spoil it -----

  /** All events of the array were for whoever has it, be it a connection or a session that waits. */
  ghost predicate Heard(s: State, users: seq<Option<User>>, a: Id) {
    && (forall id {:trigger s.sockets[id].buffer} :: id in s.sockets && s.sockets[id].buffer == a ==>
          AddressedTo(users, s.sockets[id].userId))
    && (forall x {:trigger s.orphans[x].buffer} :: x in s.orphans && s.orphans[x].buffer == a ==>
          AddressedTo(users, Some(s.orphans[x].userId)))
  }

  /** Someone who has the array is of another user. */
  ghost predicate OthersHave(s: State, a: Id, user: Option<User>) {
    || (exists id {:trigger s.sockets[id].buffer} :: id in s.sockets && s.sockets[id].buffer == a && s.sockets[id].userId != user)
    || (exists x {:trigger s.orphans[x].buffer} :: x in s.orphans && s.orphans[x].buffer == a && Some(s.orphans[x].userId) != user)
  }

  /** A greeting leaves the array with a user whom some of its events were not for; or a dispatch into it
      is for a user who is not the only one to have it. */
  ghost predicate Spoils(s: State, users: seq<Option<User>>, step: Step, a: Id) {
    match step
    case Identify(id, user) => id in s.sockets && s.sockets[id].buffer == a && !AddressedTo(users, Some(user))
    case Resume(id, user, sessionId, lastSeq, now, _) =>
      && id in s.sockets && s.sockets[id].buffer == a && !AddressedTo(users, Some(user))
      && !Adopts(s, user, sessionId, lastSeq, now)
    case SendDispatch(id, _, _) =>
      && id in s.sockets && s.sockets[id].buffer == a && s.sockets[id].userId.Some?
      && OthersHave(s, a, s.sockets[id].userId)
    case _ => false
  }

  lemma AddressedPush(users: seq<Option<User>>, user: Option<User>, owner: Option<User>)
    ensures AddressedTo(users + [user], owner) <==> AddressedTo(users, owner) && (user.None? || user == owner)
  {
    var more := users + [user];
    assert more[|users|] == user && forall k :: 0 <= k < |users| ==> more[k] == users[k];
  }

  lemma GreetingHeardIff(s: State, users: seq<Option<User>>, id: Id, user: User, a: Id)
    requires Heard(s, users, a) && id in s.sockets
    ensures Heard(AfterIdentify(s, id, user), users, a) <==>
            !(s.sockets[id].buffer == a && !AddressedTo(users, Some(user)))
  {
    hide Registered, AddressedTo;
    var t := AfterIdentify(s, id, user);
    assert t.sockets[id].buffer == s.sockets[id].buffer;
  }

  lemma ResumeHeardIff(
    s: State, users: seq<Option<User>>, id: Id, user: User, sessionId: Id, lastSeq: nat, now: int, amounts: seq<nat>,
    a: Id)
    requires WellFormed(s) && Heard(s, users, a) && id in s.sockets
    ensures Heard(AfterResume(s, id, user, sessionId, lastSeq, now, amounts), users, a) <==>
            !Spoils(s, users, Resume(id, user, sessionId, lastSeq, now, amounts), a)
  {
    hide Registered, Resumed, AddressedTo;
    var t := AfterResume(s, id, user, sessionId, lastSeq, now, amounts);
    ResumedSession(s, AfterIdentify(s, id, user).sockets[id], user, sessionId, lastSeq, now, amounts);
    assert t.sockets[id].userId == Some(user);
    if Adopts(s, user, sessionId, lastSeq, now) {
      assert t.sockets[id].buffer == s.orphans[sessionId].buffer;
    } else {
      assert t.sockets[id].buffer == s.sockets[id].buffer;
    }
  }

  lemma DispatchKeepsUsers(s: State, id: Id, event: Event, amount: nat)
    requires WellFormed(s) && id in s.sockets
    ensures var t := AfterDispatch(s, id, event, amount);
            && t.orphans == s.orphans && t.sockets.Keys == s.sockets.Keys
            && forall other {:trigger t.sockets[other].buffer} {:trigger s.sockets[other].buffer} ::
                 other in s.sockets ==>
                   other in t.sockets && t.sockets[other].buffer == s.sockets[other].buffer
                   && t.sockets[other].userId == s.sockets[other].userId
  {
    hide Appended, FloorAfter;
  }

  lemma DispatchHeardIff(s: State, users: seq<Option<User>>, id: Id, event: Event, amount: nat, a: Id)
    requires WellFormed(s) && Heard(s, users, a) && id in s.sockets && s.sockets[id].buffer == a
    ensures Heard(AfterDispatch(s, id, event, amount), users + [s.sockets[id].userId], a) <==>
            !Spoils(s, users, SendDispatch(id, event, amount), a)
  {
    hide AfterDispatch, AddressedTo, WellFormed;
    var user := s.sockets[id].userId;
    assert s.sockets[id].buffer in s.logs by { WellFormedBuffer(s, id); }
    var t := AfterDispatch(s, id, event, amount);
    DispatchKeepsUsers(s, id, event, amount);
    forall owner: Option<User>
      ensures AddressedTo(users + [user], owner) <==> AddressedTo(users, owner) && (user.None? || user == owner)
    {
      AddressedPush(users, user, owner);
    }
    var more := users + [user];
    if user.Some? && OthersHave(s, a, user) {
      if other :| other in s.sockets && s.sockets[other].buffer == a && s.sockets[other].userId != user {
        assert t.sockets[other].buffer == a && !AddressedTo(more, t.sockets[other].userId);
      } else {
        var x :| x in s.orphans && s.orphans[x].buffer == a && Some(s.orphans[x].userId) != user;
        assert !AddressedTo(more, Some(t.orphans[x].userId));
      }
    }
  }

  /** A step keeps this exactly when it does not spoil it. */
  lemma StepHeardIff(s: State, users: seq<Option<User>>, step: Step, a: Id)
    requires WellFormed(s) && Enabled(s, step) && Heard(s, users, a) && (a !in s.logs ==> users == [])
    ensures Heard(Next(s, step), users + AddresseeOf(s, step, a), a) <==> !Spoils(s, users, step, a)
  {
    hide Appended, FloorAfter, Unregistered, Registered, Resumed;
    assert users + [] == users;
    match step
    case Identify(id, user) => GreetingHeardIff(s, users, id, user, a);
    case Resume(id, user, sessionId, lastSeq, now, amounts) =>
      ResumeHeardIff(s, users, id, user, sessionId, lastSeq, now, amounts, a);
    case SendDispatch(id, event, amount) =>
      if s.sockets[id].buffer == a {
        DispatchHeardIff(s, users, id, event, amount, a);
      }
    case Close(id, now) => UnregisteredKeepsHolders(WithoutClient(s, id, now), id);
    case _ =>
  }

  ghost predicate NeverSpoiled(steps: seq<Step>, a: Id) {
    forall i :: 0 <= i < |steps| ==> !Spoils(Run(steps[..i]), Addressees(steps[..i], a), steps[i], a)
  }

  /** One addressee for each event that went in, the ones shifted out included, in every run. */
  lemma {:induction false} RunCounts(steps: seq<Step>, a: Id)
    ensures var s := Run(steps);
            if a in s.logs then |Addressees(steps, a)| == |Pushed(s.logs[a])| else Addressees(steps, a) == []
  {
    hide Next, Enabled, AddresseeOf, Pushed;
    if steps != [] {
      var n := |steps| - 1;
      var s, step := Run(steps[..n]), steps[n];
      RunCounts(steps[..n], a);
      RunIsWellFormed(steps[..n]);
      if !Enabled(s, step) {
        SkippedDispatch(s, step, a);
      } else if a in s.logs {
        StepPushes(s, step, a);
      } else {
        NewArrayIsEmpty(s, step, a);
        assert Pushed(NEW_LOG) == [] by { NothingPushed(); }
      }
    }
  }

  lemma NothingPushed()
    ensures Pushed(NEW_LOG) == []
  {
  }

  lemma {:induction false} RunIsHeard(steps: seq<Step>, a: Id)
    requires NeverSpoiled(steps, a)
    ensures Heard(Run(steps), Addressees(steps, a), a)
  {
    hide Next, Enabled, AddresseeOf, Heard, Spoils, WellFormed;
    if steps == [] {
      NothingHeard(a);
    } else {
      var n := |steps| - 1;
      var s, step := Run(steps[..n]), steps[n];
      assert forall i :: 0 <= i < n ==> steps[..n][..i] == steps[..i];
      RunIsHeard(steps[..n], a);
      RunIsWellFormed(steps[..n]);
      RunCounts(steps[..n], a);
      if Enabled(s, step) {
        StepHeardIff(s, Addressees(steps[..n], a), step, a);
      } else {
        SkippedDispatch(s, step, a);
        assert Addressees(steps[..n], a) + [] == Addressees(steps[..n], a);
      }
    }
  }

  lemma NothingHeard(a: Id)
    ensures Heard(EMPTY, [], a)
  {
  }

  /** No one is replayed what was for another: where no step spoiled its array, whoever takes a session
      over is the user whom every one of its events was for. */
  lemma TakeoverIsOwn(steps: seq<Step>, user: User, sessionId: Id, lastSeq: nat, now: int)
    requires Adopts(Run(steps), user, sessionId, lastSeq, now)
    requires NeverSpoiled(steps, Run(steps).orphans[sessionId].buffer)
    ensures var s := Run(steps);
            var a := s.orphans[sessionId].buffer;
            && a in s.logs && |Addressees(steps, a)| == |Pushed(s.logs[a])|
            && AddressedTo(Addressees(steps, a), Some(user))
  {
    hide Run, Addressees, NeverSpoiled;
    RunIsWellFormed(steps);
    RunCounts(steps, Run(steps).orphans[sessionId].buffer);
    RunIsHeard(steps, Run(steps).orphans[sessionId].buffer);
  }

  /** It is enough that no connection that has the array, or made it, changes its user. */
  lemma UsersWhoStaySpoilNothing(steps: seq<Step>, a: Id)
    requires NeverChangesUser(steps, a)
    ensures NeverSpoiled(steps, a)
  {
    hide Run, Addressees, Spoils, ChangesUser;
    forall i | 0 <= i < |steps|
      ensures !Spoils(Run(steps[..i]), Addressees(steps[..i], a), steps[i], a)
    {
      assert forall k :: 0 <= k < i ==> steps[..i][..k] == steps[..k];
      RunKeepsOwner(steps[..i], a);
      RunAccounts(steps[..i], a);
      RunIsWellFormed(steps[..i]);
      OwnersSpoilNothing(Run(steps[..i]), Addressees(steps[..i], a), steps[i], a);
    }
  }

  lemma OwnersSpoilNothing(s: State, users: seq<Option<User>>, step: Step, a: Id)
    requires WellFormed(s) && OwnedAt(s, a) && Accounted(s, users, a) && !ChangesUser(s, step, a)
    ensures !Spoils(s, users, step, a)
  {
    hide Adopts;
  }
}
