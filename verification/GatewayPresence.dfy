/** The connection sets that drive presence, over whole runs of the session protocol. */
module GatewayPresence {
  import opened GatewayProtocol
  import opened GatewayRuns
  import opened Wrappers

  /** The user's live sockets: open and identified as the user. */
  ghost function Live(s: State, user: User): set<Id> {
    set id | id in s.open && id in s.sockets && s.sockets[id].userId == Some(user)
  }

  /** The connection map holds the user's live sockets, if there are any, and no entry if not. */
  ghost predicate ConnectionHolds(s: State, user: User) {
    if user in s.userConnections then s.userConnections[user] == Live(s, user) != {} else Live(s, user) == {}
  }

  /** What the last presence call about a user says. */
  function Online(calls: seq<PresenceCall>, user: User): bool {
    if calls == [] then false
    else
      var n := |calls| - 1;
      if calls[n].user == user then calls[n].MarkConnected? else Online(calls[..n], user)
  }

  ghost predicate PresenceHolds(s: State, user: User) {
    Online(s.presence, user) <==> user in s.userConnections
  }

  /** IDENTIFY or RESUME makes a closed socket the user's, or an open socket of the user's another's. */
  ghost predicate Misgreets(s: State, step: Step, user: User) {
    && (step.Identify? || step.Resume?) && step.id in s.sockets
    && if step.user == user then step.id !in s.open
       else step.id in s.open && s.sockets[step.id].userId == Some(user)
  }

  // ----- what each step does to the sets -----

  lemma SendKeepsUser(c: Socket, frame: Frame, amount: nat)
    ensures Send(c, frame, amount).userId == c.userId
  {
  }

  /** Steps other than IDENTIFY, RESUME and a close leave users, sets and calls alone. */
  lemma QuietStep(s: State, step: Step)
    requires WellFormed(s) && Enabled(s, step)
    requires !step.Identify? && !step.Resume? && !step.Close?
    ensures var t := Next(s, step);
            && t.userConnections == s.userConnections && t.presence == s.presence
            && forall user :: Live(t, user) == Live(s, user)
  {
    hide Send, Appended, FloorAfter;
    match step
    case Connect(id, amount) => SendKeepsUser(NewSocket(id), Hello(id), amount);
    case SendDispatch(id, event, amount) =>
      var c := s.sockets[id];
      var item := NextItem(c, event);
      SendKeepsUser(
        c.(lastNumber := item.s, bufferFloor := FloorAfter(s.logs[c.buffer], c.bufferFloor, item)), Dispatch(item), amount);
    case Reply(id, frame, amount) => SendKeepsUser(s.sockets[id], frame, amount);
    case Sweep(now) =>
  }

  lemma GreetingStep(s: State, step: Step)
    requires WellFormed(s) && Enabled(s, step)
    requires step.Identify? || step.Resume?
    ensures var t := Next(s, step);
            && t.userConnections == Registered(s.userConnections, step.user, step.id)
            && t.presence == s.presence + [MarkConnected(step.user)]
            && t.open == s.open
            && step.id in t.sockets && t.sockets[step.id].userId == Some(step.user)
            && t.sockets == s.sockets[step.id := t.sockets[step.id]]
  {
    match step
    case Identify(id, user) =>
    case Resume(id, user, sessionId, lastSeq, now, amounts) =>
      hide Resumed;
      ResumedSession(s, AfterIdentify(s, id, user).sockets[id], user, sessionId, lastSeq, now, amounts);
  }

  lemma LiveAfterGreeting(s: State, step: Step, user: User)
    requires WellFormed(s) && Enabled(s, step)
    requires step.Identify? || step.Resume?
    ensures var t := Next(s, step);
            Live(t, user) == if user == step.user && step.id in s.open then Live(s, user) + {step.id}
                             else if user == step.user then Live(s, user)
                             else Live(s, user) - {step.id}
  {
    hide Next, Registered;
    GreetingStep(s, step);
  }

  lemma LiveHas(s: State, id: Id, user: User)
    ensures id in Live(s, user) <==> id in s.open && id in s.sockets && s.sockets[id].userId == Some(user)
  {
  }

  /** IDENTIFY and RESUME keep a user's set exactly when they neither make a closed socket the user's
      nor an open one of the user's another's. */
  lemma GreetingIff(s: State, step: Step, user: User)
    requires WellFormed(s) && ConnectionHolds(s, user) && Enabled(s, step)
    requires step.Identify? || step.Resume?
    ensures ConnectionHolds(Next(s, step), user) <==> !Misgreets(s, step, user)
  {
    hide Next, Live;
    GreetingStep(s, step);
    LiveAfterGreeting(s, step, user);
    LiveHas(s, step.id, user);
  }

  /** A close takes the socket out of its user's set, and tells presence when the set runs empty. */
  lemma CloseKeepsConnection(s: State, id: Id, now: int, user: User)
    requires WellFormed(s) && ConnectionHolds(s, user) && id in s.open
    ensures var t := AfterClose(s, id, now);
            && ConnectionHolds(t, user) && Live(t, user) == Live(s, user) - {id}
            && s.presence <= t.presence
            && (MarkDisconnected(user) in t.presence[|s.presence|..] <==> Live(s, user) == {id})
  {
    LiveHas(s, id, user);
    var t := AfterClose(s, id, now);
    assert Live(t, user) == Live(s, user) - {id};
    hide Live;
  }

  /** The call that a user is gone is made by the steps that take the user's live sockets from one to
      none, and by no other: any that closes the only one; and any at all, as long as it does not
      spoil the user's set. */
  lemma DisconnectIsLastSocket(s: State, step: Step, user: User)
    requires WellFormed(s) && ConnectionHolds(s, user) && Enabled(s, step)
    ensures var t := Next(s, step);
            var gone := MarkDisconnected(user) in t.presence[|s.presence|..];
            var last := |Live(s, user)| == 1 && |Live(t, user)| == 0;
            && s.presence <= t.presence
            && (gone <==> step.Close? && last)
            && (!Misgreets(s, step, user) ==> (gone <==> last))
  {
    hide Live, AfterClose, ConnectionHolds;
    if step.Close? {
      CloseKeepsConnection(s, step.id, step.now, user);
      OnlyOne(Live(s, user), step.id);
    } else if step.Identify? || step.Resume? {
      GreetingStep(s, step);
      LiveAfterGreeting(s, step, user);
      LiveHas(s, step.id, user);
    } else {
      QuietStep(s, step);
    }
  }

  lemma OnlyOne(ids: set<Id>, id: Id)
    ensures |ids| == 1 && |ids - {id}| == 0 <==> ids == {id}
  {
    if |ids| == 1 && |ids - {id}| == 0 {
      assert ids <= {id};
    }
  }

  lemma StepKeepsPresence(s: State, step: Step, user: User)
    requires WellFormed(s) && PresenceHolds(s, user) && Enabled(s, step)
    ensures PresenceHolds(Next(s, step), user)
  {
    if step.Identify? || step.Resume? {
      GreetingStep(s, step);
    } else if !step.Close? {
      QuietStep(s, step);
    }
  }

  // ----- runs -----

  /** A step keeps a user's set exactly when it does not misgreet the user. */
  lemma StepConnectionIff(s: State, step: Step, user: User)
    requires WellFormed(s) && ConnectionHolds(s, user) && Enabled(s, step)
    ensures ConnectionHolds(Next(s, step), user) <==> !Misgreets(s, step, user)
  {
    if step.Identify? || step.Resume? {
      GreetingIff(s, step, user);
    } else if step.Close? {
      CloseKeepsConnection(s, step.id, step.now, user);
    } else {
      QuietStep(s, step);
    }
  }

  ghost predicate NeverMisgreets(steps: seq<Step>, user: User) {
    forall i :: 0 <= i < |steps| ==> !Misgreets(Run(steps[..i]), steps[i], user)
  }

  /** In every run that never misgreets the user, whatever it does to others. */
  lemma {:induction false} RunKeepsConnection(steps: seq<Step>, user: User)
    requires NeverMisgreets(steps, user)
    ensures ConnectionHolds(Run(steps), user)
  {
    hide Next, Misgreets, WellFormed;
    if steps == [] {
      NobodyAtFirst(user);
    } else {
      var n := |steps| - 1;
      assert forall i :: 0 <= i < n ==> steps[..n][..i] == steps[..i];
      RunKeepsConnection(steps[..n], user);
      RunIsWellFormed(steps[..n]);
      if Enabled(Run(steps[..n]), steps[n]) {
        StepConnectionIff(Run(steps[..n]), steps[n], user);
      }
    }
  }

  lemma NobodyAtFirst(user: User)
    ensures ConnectionHolds(EMPTY, user)
  {
  }

  /** In every run the last presence call about a user agrees with the connection map. */
  lemma {:induction false} RunKeepsPresence(steps: seq<Step>, user: User)
    ensures PresenceHolds(Run(steps), user)
  {
    if steps != [] {
      var n := |steps| - 1;
      RunKeepsPresence(steps[..n], user);
      RunIsWellFormed(steps[..n]);
      if Enabled(Run(steps[..n]), steps[n]) {
        StepKeepsPresence(Run(steps[..n]), steps[n], user);
      }
    }
  }

  /** A user who is never misgreeted is last reported present exactly while a live socket of the
      user is there. */
  lemma PresenceIsLive(steps: seq<Step>, user: User)
    requires NeverMisgreets(steps, user)
    ensures Online(Run(steps).presence, user) <==> Live(Run(steps), user) != {}
  {
    RunKeepsConnection(steps, user);
    RunKeepsPresence(steps, user);
  }
}
