/** Runs that go wrong: a fanout or a READY that goes on behind an `await`, and an IDENTIFY whose
    session check took too long, end on a socket that has closed meanwhile; a RESUME comes in on a
    socket that has a session already; a connection changes its user. */
module GatewayRaces {
  import opened GatewayProtocol
  import opened GatewayRuns
  import opened GatewayPresence
  import opened Wrappers

  const USER: User := "ada"

  const GREETED: seq<Step> := [Connect(1, 0)] + [Identify(1, USER)]

  function Greeted(): State {
    State(map[1 := Socket(Some(USER), true, false, 0, 1, 0, 0, [Hello(1)])],
          {1}, map[1 := NEW_LOG], map[], map[USER := {1}], [MarkConnected(USER)])
  }

  lemma GreetedRun()
    ensures Run(GREETED) == Greeted()
  {
    var s0: seq<Step> := [];
    var s1: seq<Step> := [Connect(1, 0)];
    assert s0 + [Connect(1, 0)] == s1;
    RunPush(s0, Connect(1, 0));
    RunIsWellFormed(s1);
    RunPush(s1, Identify(1, USER));
    var t := Run(GREETED);
    assert t.sockets[1].sent == [Hello(1)];
    assert t.userConnections[USER] == {1};
  }

  /** A client is identified and gets one event. */
  function ServedSteps(a: Event): seq<Step> {
    GREETED + [SendDispatch(1, a, 0)]
  }

  function Served(a: Event): State {
    Greeted().(sockets := map[1 := Socket(Some(USER), true, false, 1, 1, 1, 0, [Hello(1), Dispatch(Numbered(1, a))])],
               logs := map[1 := Log([], [Numbered(1, a)])])
  }

  lemma ServedRun(a: Event)
    ensures Run(ServedSteps(a)) == Served(a)
  {
    hide Run;
    GreetedRun();
    RunIsWellFormed(GREETED);
    RunPush(GREETED, SendDispatch(1, a, 0));
    var t := Run(ServedSteps(a));
    assert t.sockets[1] == Served(a).sockets[1];
    assert t.logs[1] == Log([], [Numbered(1, a)]);
  }

  /** It closes, and leaves an orphan. */
  function PartedSteps(a: Event): seq<Step> {
    ServedSteps(a) + [Close(1, 0)]
  }

  function Parted(a: Event): State {
    Served(a).(open := {}, orphans := map[1 := Orphan(USER, 1, 1, 1, ORPHAN_BUFFER_TTL_MS)],
               userConnections := map[], presence := [MarkConnected(USER), MarkDisconnected(USER)])
  }

  lemma PartedRun(a: Event)
    ensures Run(PartedSteps(a)) == Parted(a)
  {
    hide Run;
    ServedRun(a);
    RunIsWellFormed(ServedSteps(a));
    RunPush(ServedSteps(a), Close(1, 0));
  }

  /** A fanout that started before goes on: the event lands in the array that the orphan points at. */
  function LateSteps(a: Event, b: Event): seq<Step> {
    PartedSteps(a) + [SendDispatch(1, b, 0)]
  }

  predicate IsLate(s: State, a: Event, b: Event) {
    && s.logs == map[1 := Log([], [Numbered(1, a), Numbered(2, b)])]
    && s.orphans == map[1 := Orphan(USER, 1, 1, 1, ORPHAN_BUFFER_TTL_MS)]
    && 2 !in s.sockets
  }

  lemma LateRun(a: Event, b: Event)
    ensures IsLate(Run(LateSteps(a, b)), a, b)
  {
    hide Run;
    PartedRun(a);
    RunIsWellFormed(PartedSteps(a));
    RunPush(PartedSteps(a), SendDispatch(1, b, 0));
    var t := Run(LateSteps(a, b));
    assert t.logs[1] == Log([], [Numbered(1, a), Numbered(2, b)]);
  }

  /** The client comes back and resumes behind the first event. */
  function ResumedSteps(a: Event, b: Event): seq<Step> {
    LateSteps(a, b) + [Connect(2, 0)] + [Resume(2, USER, 1, 1, 1, [])]
  }

  function Rejoined(b: Event): Socket {
    Socket(Some(USER), true, false, 1, 1, 1, 1, [Hello(2), Dispatch(Numbered(2, b))])
  }

  lemma ResumedRun(a: Event, b: Event)
    ensures var s := Run(ResumedSteps(a, b));
            2 in s.sockets && s.sockets[2] == Rejoined(b)
  {
    hide Run, SendAll, After;
    LateRun(a, b);
    var back := LateSteps(a, b) + [Connect(2, 0)];
    RunIsWellFormed(LateSteps(a, b));
    RunPush(LateSteps(a, b), Connect(2, 0));
    RunIsWellFormed(back);
    RunPush(back, Resume(2, USER, 1, 1, 1, []));
    ReplayOfSecond(Adopted(AfterIdentify(Run(back), 2, USER).sockets[2], Run(back).orphans[1], 1), a, b);
  }

  lemma ReplayOfSecond(c: Socket, a: Event, b: Event)
    requires !c.closing
    ensures SendAll(c, After([Numbered(1, a), Numbered(2, b)], 1), []) == c.(sent := c.sent + [Dispatch(Numbered(2, b))])
  {
    AfterIsSuffix([Numbered(1, a), Numbered(2, b)], 1, 1);
    assert After([Numbered(1, a), Numbered(2, b)], 1) == [Numbered(2, b)];
    assert [Numbered(2, b)][..0] == [];
  }

  /** The client that resumes after a late dispatch gets two events with the number 2. */
  lemma LateDispatchRepeatsANumber(a: Event, b: Event, c: Event)
    ensures var s := Run(ResumedSteps(a, b) + [SendDispatch(2, c, 0)]);
            2 in s.sockets && s.sockets[2].sent == [Hello(2), Dispatch(Numbered(2, b)), Dispatch(Numbered(2, c))]
  {
    hide Run;
    ResumedRun(a, b);
    RunIsWellFormed(ResumedSteps(a, b));
    RunPush(ResumedSteps(a, b), SendDispatch(2, c, 0));
  }

  /** The client comes back with an IDENTIFY instead. */
  function BackSteps(a: Event): seq<Step> {
    PartedSteps(a) + [Connect(2, 0)] + [Identify(2, USER)]
  }

  predicate IsBack(s: State, a: Event) {
    && 2 in s.sockets && s.sockets[2] == Socket(Some(USER), true, false, 0, 2, 0, 0, [Hello(2)])
    && 2 in s.logs && s.logs[2] == NEW_LOG
    && 1 in s.logs && s.logs[1] == Log([], [Numbered(1, a)])
    && s.orphans == map[1 := Orphan(USER, 1, 1, 1, ORPHAN_BUFFER_TTL_MS)]
  }

  lemma BackRun(a: Event)
    ensures IsBack(Run(BackSteps(a)), a)
  {
    hide Run;
    PartedRun(a);
    var met := PartedSteps(a) + [Connect(2, 0)];
    RunIsWellFormed(PartedSteps(a));
    RunPush(PartedSteps(a), Connect(2, 0));
    RunIsWellFormed(met);
    RunPush(met, Identify(2, USER));
    assert Run(BackSteps(a)).sockets[2].sent == [Hello(2)];
  }

  /** It gets an event, then resumes its old session on the same socket, which is handed two events
      with the number 1. */
  lemma TakeoverRepeatsANumber(a: Event, b: Event)
    ensures var s := Run(BackSteps(a) + [SendDispatch(2, b, 0)] + [Resume(2, USER, 1, 0, 1, [])]);
            2 in s.sockets && s.sockets[2].sent == [Hello(2), Dispatch(Numbered(1, b)), Dispatch(Numbered(1, a))]
  {
    hide Run, SendAll, After;
    BackRun(a);
    RunIsWellFormed(BackSteps(a));
    RunPush(BackSteps(a), SendDispatch(2, b, 0));
    var again := BackSteps(a) + [SendDispatch(2, b, 0)];
    RunIsWellFormed(again);
    RunPush(again, Resume(2, USER, 1, 0, 1, []));
    ReplayOfFirst(Adopted(AfterIdentify(Run(again), 2, USER).sockets[2], Run(again).orphans[1], 0), a);
  }

  lemma ReplayOfFirst(c: Socket, a: Event)
    requires !c.closing
    ensures SendAll(c, After([Numbered(1, a)], 0), []) == c.(sent := c.sent + [Dispatch(Numbered(1, a))])
  {
    assert After([Numbered(1, a)], 0) == [Numbered(1, a)];
    assert [Numbered(1, a)][..0] == [];
  }

  const OTHER: User := "bob"

  /** The served client identifies as another user, and closes. */
  function ChangedSteps(a: Event): seq<Step> {
    ServedSteps(a) + [Identify(1, OTHER)] + [Close(1, 0)]
  }

  predicate IsChanged(s: State, a: Event) {
    && 1 in s.logs && s.logs[1] == Log([], [Numbered(1, a)])
    && s.orphans == map[1 := Orphan(OTHER, 1, 1, 1, ORPHAN_BUFFER_TTL_MS)]
    && 2 !in s.sockets
  }

  lemma ChangedRun(a: Event)
    ensures IsChanged(Run(ChangedSteps(a)), a)
  {
    hide Run;
    ServedRun(a);
    var changed := ServedSteps(a) + [Identify(1, OTHER)];
    RunIsWellFormed(ServedSteps(a));
    RunPush(ServedSteps(a), Identify(1, OTHER));
    RunIsWellFormed(changed);
    RunPush(changed, Close(1, 0));
  }

  /** The other user resumes the session, and is replayed the event that was for the first. */
  lemma ChangedUserIsReplayed(a: Event)
    ensures var s := Run(ChangedSteps(a) + [Connect(2, 0)] + [Resume(2, OTHER, 1, 0, 1, [])]);
            2 in s.sockets && s.sockets[2].userId == Some(OTHER)
            && s.sockets[2].sent == [Hello(2), Dispatch(Numbered(1, a))]
  {
    hide Run, SendAll, After;
    ChangedRun(a);
    var back := ChangedSteps(a) + [Connect(2, 0)];
    RunIsWellFormed(ChangedSteps(a));
    RunPush(ChangedSteps(a), Connect(2, 0));
    RunIsWellFormed(back);
    RunPush(back, Resume(2, OTHER, 1, 0, 1, []));
    ReplayOfFirst(Adopted(AfterIdentify(Run(back), 2, OTHER).sockets[2], Run(back).orphans[1], 0), a);
  }

  /** An IDENTIFY that ends on a closed socket leaves the user reported present with no socket. */
  lemma LateIdentifyLeavesUserPresent()
    ensures var s := Run([Connect(1, 0)] + [Close(1, 0)] + [Identify(1, USER)]);
            Online(s.presence, USER) && Live(s, USER) == {}
  {
    var s0: seq<Step> := [];
    var s1: seq<Step> := [Connect(1, 0)];
    var s2 := s1 + [Close(1, 0)];
    assert s0 + [Connect(1, 0)] == s1;
    RunPush(s0, Connect(1, 0));
    RunIsWellFormed(s1);
    RunPush(s1, Close(1, 0));
    RunIsWellFormed(s2);
    RunPush(s2, Identify(1, USER));
  }
}
