/** What holds of raid lockdowns in every run of watch ticks, config edits, lifts and joins. */
module RaidRuns {
  import opened ServerAccess
  import opened InviteRuns
  import opened Wrappers

  /** The trip that no lift came behind, if there is one. */
  function StandingTrip(log: seq<RaidEvent>, server: Id): Option<Time> {
    if log == [] then None
    else
      var n := |log| - 1;
      if log[n].server == server then (if log[n].Tripped? then Some(log[n].at) else None)
      else StandingTrip(log[..n], server)
  }

  /** A lockdown is active exactly when its end is set. */
  predicate EndSet(s: State, server: Id) {
    server in s.raids ==> (s.raids[server].lockdownActive <==> s.raids[server].lockdownEndsAt.Some?)
  }

  /** Between two trips of the server there is a lift. */
  ghost predicate Alternates(log: seq<RaidEvent>, server: Id) {
    forall i {:trigger log[i]} :: 0 <= i < |log| && log[i].Tripped? && log[i].server == server ==>
      StandingTrip(log[..i], server) == None
  }

  /** The end of an active lockdown is that of the standing trip. */
  ghost predicate RowHolds(s: State, server: Id) {
    && EndSet(s, server)
    && StandingTrip(s.raidLog, server) ==
         (if server in s.raids && s.raids[server].lockdownActive
          then Some(s.raids[server].lockdownEndsAt.value - RAID_LOCKDOWN_MS) else None)
    && Alternates(s.raidLog, server)
  }

  /** A tick comes to a row that it read as unlocked, finds joins enough, and the row is locked by now. */
  predicate TripsLockedRow(s: State, w: Watched, now: Time) {
    && !w.row.lockdownActive
    && RecentJoins(s.members, w.server, now - w.row.joinWindowSec * 1000) >= w.row.joinThreshold
    && w.server in s.raids && s.raids[w.server].lockdownActive
  }

  predicate TripsLocked(s: State, step: Step, server: Id) {
    && step.AdvanceTick? && step.id in s.ticks && s.ticks[step.id].pending != []
    && var t := s.ticks[step.id];
       t.pending[0].server == server && TripsLockedRow(s, t.pending[0], t.now)
  }

  // ----- one row -----

  lemma AlternatesPush(log: seq<RaidEvent>, e: RaidEvent, server: Id)
    requires Alternates(log, server)
    ensures Alternates(log + [e], server) <==>
            (e.Tripped? && e.server == server ==> StandingTrip(log, server) == None)
  {
    var r := log + [e];
    assert r[..|log|] == log && r[|log|] == e;
    forall i | 0 <= i < |log|
      ensures r[i] == log[i] && r[..i] == log[..i]
    {
    }
  }

  lemma LiftKeepsRow(s: State, id: Id, server: Id)
    requires RowHolds(s, server)
    ensures RowHolds(AfterLift(s, id), server)
  {
    AlternatesPush(s.raidLog, Lifted(id), server);
  }

  /** A trip keeps a row right, except that of its own server if that is locked at that moment. */
  lemma TripKeepsRowIff(s: State, id: Id, now: Time, server: Id)
    requires RowHolds(s, server) && id in s.raids
    ensures RowHolds(AfterTrip(s, id, now), server) <==> !(id == server && s.raids[server].lockdownActive)
  {
    AlternatesPush(s.raidLog, Tripped(id, now), server);
  }

  lemma WatchRowIff(s: State, w: Watched, now: Time, server: Id)
    requires RowHolds(s, server)
    ensures RowHolds(AfterWatch(s, w, now), server) <==> !(w.server == server && TripsLockedRow(s, w, now))
  {
    hide RowHolds;
    LiftKeepsRow(s, w.server, server);
    if w.server in s.raids {
      TripKeepsRowIff(s, w.server, now, server);
    }
  }

  lemma PutKeepsRow(
    s: State, id: Id, enabled: bool, joinWindowSec: nat, joinThreshold: nat, action: Action, server: Id)
    requires RowHolds(s, server)
    ensures RowHolds(AfterPut(s, id, enabled, joinWindowSec, joinThreshold, action), server)
    ensures var was := if id in s.raids then s.raids[id] else Raid(enabled, joinWindowSec, joinThreshold, action, false, None);
            var row := Row(AfterPut(s, id, enabled, joinWindowSec, joinThreshold, action).raids, id);
            row == Some(Raid(enabled, joinWindowSec, joinThreshold, action, was.lockdownActive, was.lockdownEndsAt))
    ensures server != id ==>
              Row(AfterPut(s, id, enabled, joinWindowSec, joinThreshold, action).raids, server) == Row(s.raids, server)
  {
  }

  lemma RowCarries(s: State, t: State, server: Id)
    requires t.raids == s.raids && t.raidLog == s.raidLog
    ensures RowHolds(t, server) <==> RowHolds(s, server)
  {
  }

  // ----- steps and runs -----

  /** Steps of joins, invites, members and bans leave lockdowns and ticks alone. */
  lemma OtherKeepsRaids(s: State, step: Step)
    requires Enabled(s, step)
    requires !step.PutConfig? && !step.Lift? && !step.StartTick? && !step.AdvanceTick? && !step.AbortTick?
    ensures var t := Next(s, step);
            t.raids == s.raids && t.raidLog == s.raidLog && t.ticks == s.ticks
  {
    if step.AdvanceJoin? {
      if !Commits(s, step.id, step.now) {
        ReadStep(s, step.id, step.now);
      }
    }
  }

  lemma TickStepRowIff(s: State, id: Id, server: Id)
    requires RowHolds(s, server) && id in s.ticks
    ensures RowHolds(AfterTickStep(s, id), server) <==> !TripsLocked(s, AdvanceTick(id), server)
  {
    hide AfterWatch, RowHolds, TripsLockedRow;
    var t := s.ticks[id];
    if t.pending == [] {
      RowCarries(s, AfterTickStep(s, id), server);
    } else {
      WatchRowIff(s, t.pending[0], t.now, server);
      RowCarries(AfterWatch(s, t.pending[0], t.now), AfterTickStep(s, id), server);
    }
  }

  /** A step keeps a server's row right exactly when it does not trip that server while it is locked. */
  lemma StepRowIff(s: State, step: Step, server: Id)
    requires RowHolds(s, server) && Enabled(s, step)
    ensures RowHolds(Next(s, step), server) <==> !TripsLocked(s, step, server)
  {
    hide RowHolds, AfterTickStep, AfterJoinStep, ListsEnabled, TripsLockedRow;
    match step
    case PutConfig(id, enabled, joinWindowSec, joinThreshold, action) =>
      PutKeepsRow(s, id, enabled, joinWindowSec, joinThreshold, action, server);
    case Lift(id) => LiftKeepsRow(s, id, server);
    case AdvanceTick(id) => TickStepRowIff(s, id, server);
    case StartTick(_, _, _) => RowCarries(s, Next(s, step), server);
    case AbortTick(_) => RowCarries(s, Next(s, step), server);
    case _ =>
      OtherKeepsRaids(s, step);
      RowCarries(s, Next(s, step), server);
  }

  ghost predicate NeverTripsLocked(steps: seq<Step>, server: Id) {
    forall i :: 0 <= i < |steps| ==> !TripsLocked(Run(steps[..i]), steps[i], server)
  }

  /** In every run that never trips a server while it is locked, whatever it does to others: its
      lockdown is active exactly when its end is set, the end is the tripping tick's time and 15
      minutes, and its trips have a lift between. */
  lemma {:induction false} RunKeepsRow(steps: seq<Step>, server: Id)
    requires NeverTripsLocked(steps, server)
    ensures RowHolds(Run(steps), server)
  {
    if steps != [] {
      var n := |steps| - 1;
      assert forall i :: 0 <= i < n ==> steps[..n][..i] == steps[..i];
      RunKeepsRow(steps[..n], server);
      if Enabled(Run(steps[..n]), steps[n]) {
        StepRowIff(Run(steps[..n]), steps[n], server);
      }
    }
  }

  lemma TickKeepsEnd(s: State, id: Id, server: Id)
    requires EndSet(s, server) && id in s.ticks
    ensures EndSet(AfterTickStep(s, id), server)
  {
    hide RecentJoins;
  }

  lemma StepKeepsEnd(s: State, step: Step, server: Id)
    requires EndSet(s, server) && Enabled(s, step)
    ensures EndSet(Next(s, step), server)
  {
    hide AfterJoinStep, AfterTickStep, ListsEnabled;
    match step
    case PutConfig(_, _, _, _, _) =>
    case Lift(_) =>
    case AdvanceTick(id) => TickKeepsEnd(s, id, server);
    case StartTick(_, _, _) =>
    case AbortTick(_) =>
    case _ => OtherKeepsRaids(s, step);
  }

  /** In every run whatsoever a lockdown is active exactly when its end is set. */
  lemma {:induction false} RunKeepsEnds(steps: seq<Step>, server: Id)
    ensures EndSet(Run(steps), server)
  {
    if steps != [] {
      var n := |steps| - 1;
      RunKeepsEnds(steps[..n], server);
      if Enabled(Run(steps[..n]), steps[n]) {
        StepKeepsEnd(Run(steps[..n]), steps[n], server);
      }
    }
  }

  /** A step that does not trip a locked server leaves an active lockdown its end, or lifts it. */
  lemma EndChangesByLiftOnly(s: State, step: Step, server: Id)
    requires Enabled(s, step) && server in s.raids && s.raids[server].lockdownActive && !TripsLocked(s, step, server)
    ensures var t := Next(s, step);
            server in t.raids
            && if t.raids[server].lockdownActive then t.raids[server].lockdownEndsAt == s.raids[server].lockdownEndsAt
               else t.raidLog == s.raidLog + [Lifted(server)]
  {
    match step
    case PutConfig(_, _, _, _, _) =>
    case Lift(_) =>
    case StartTick(_, _, _) =>
    case AdvanceTick(_) =>
    case AbortTick(_) =>
    case _ => OtherKeepsRaids(s, step);
  }

  // ----- who lifts a lockdown -----

  /** A manual lift of the server, or a tick that comes to its row, which it read as locked with an
      end that had come. */
  predicate LiftsServer(s: State, step: Step, server: Id) {
    || step == Lift(server)
    || (&& step.AdvanceTick? && step.id in s.ticks && s.ticks[step.id].pending != []
        && var tick := s.ticks[step.id];
           var w := tick.pending[0];
           && w.server == server && w.row.lockdownActive
           && w.row.lockdownEndsAt.Some? && w.row.lockdownEndsAt.value <= tick.now)
  }

  /** Nothing else lifts a lockdown. */
  lemma LiftedIff(s: State, step: Step, server: Id)
    requires Enabled(s, step) && server in s.raids && s.raids[server].lockdownActive
    ensures server in Next(s, step).raids
    ensures !Next(s, step).raids[server].lockdownActive <==> LiftsServer(s, step, server)
  {
    hide RecentJoins, ListsEnabled;
    match step
    case PutConfig(_, _, _, _, _) =>
    case Lift(_) =>
    case StartTick(_, _, _) =>
    case AdvanceTick(_) =>
    case AbortTick(_) =>
    case _ => OtherKeepsRaids(s, step);
  }

  /** Nothing but a tick that read the row as not locked, with joins enough, locks it. */
  lemma LockedIff(s: State, step: Step, server: Id)
    requires Enabled(s, step) && server in s.raids && !s.raids[server].lockdownActive
    ensures server in Next(s, step).raids
    ensures Next(s, step).raids[server].lockdownActive <==>
            && step.AdvanceTick? && step.id in s.ticks && s.ticks[step.id].pending != []
            && var tick := s.ticks[step.id];
               var w := tick.pending[0];
               && w.server == server && !w.row.lockdownActive
               && RecentJoins(s.members, server, tick.now - w.row.joinWindowSec * 1000) >= w.row.joinThreshold
  {
    hide RecentJoins, ListsEnabled;
    match step
    case PutConfig(_, _, _, _, _) =>
    case Lift(_) =>
    case StartTick(_, _, _) =>
    case AdvanceTick(_) =>
    case AbortTick(_) =>
    case _ => OtherKeepsRaids(s, step);
  }

  // ----- one tick at a time is enough -----

  /** If the row is locked, the tick read it as locked, with the end it has now. */
  predicate WatchHolds(raids: map<Id, Raid>, w: Watched) {
    w.server in raids
    && (raids[w.server].lockdownActive ==>
          w.row.lockdownActive && w.row.lockdownEndsAt == raids[w.server].lockdownEndsAt)
  }

  ghost predicate PendingHolds(raids: map<Id, Raid>, pending: seq<Watched>) {
    && (forall k :: 0 <= k < |pending| ==> WatchHolds(raids, pending[k]))
    && (forall j, k :: 0 <= j < k < |pending| ==> pending[j].server != pending[k].server)
  }

  ghost predicate TicksHold(s: State) {
    && (forall a, b :: a in s.ticks && b in s.ticks ==> a == b)
    && forall id {:trigger s.ticks[id].pending} :: id in s.ticks ==> PendingHolds(s.raids, s.ticks[id].pending)
  }

  /** A tick starts only when none is under way; one that aborts is none. */
  predicate TicksInTurn(s: State, step: Step) {
    step.StartTick? ==> s.ticks == map[]
  }

  /** No row but those in `changed` got locked, or another end. */
  ghost predicate NoneLockedBut(before: map<Id, Raid>, after: map<Id, Raid>, changed: set<Id>) {
    forall id {:trigger id in after} :: id in before ==>
      && id in after
      && (id !in changed && after[id].lockdownActive ==>
            before[id].lockdownActive && after[id].lockdownEndsAt == before[id].lockdownEndsAt)
  }

  lemma PendingCarries(before: map<Id, Raid>, after: map<Id, Raid>, pending: seq<Watched>, changed: set<Id>)
    requires PendingHolds(before, pending) && NoneLockedBut(before, after, changed)
    requires forall k :: 0 <= k < |pending| ==> pending[k].server !in changed
    ensures PendingHolds(after, pending)
  {
    forall k | 0 <= k < |pending|
      ensures WatchHolds(after, pending[k])
    {
      assert WatchHolds(before, pending[k]);
      assert pending[k].server in after;
    }
  }

  lemma WatchLocksOne(s: State, w: Watched, now: Time)
    ensures NoneLockedBut(s.raids, AfterWatch(s, w, now).raids, {w.server})
    ensures AfterWatch(s, w, now).ticks == s.ticks
  {
  }

  lemma TickStepKeepsTicks(s: State, id: Id)
    requires TicksHold(s) && id in s.ticks
    ensures TicksHold(AfterTickStep(s, id))
  {
    hide AfterWatch;
    var pending := s.ticks[id].pending;
    assert PendingHolds(s.raids, pending);
    if pending != [] {
      WatchLocksOne(s, pending[0], s.ticks[id].now);
      var rest := pending[1..];
      PendingCarries(s.raids, AfterTickStep(s, id).raids, rest, {pending[0].server});
    }
  }

  lemma TicksCarry(s: State, t: State)
    requires TicksHold(s) && t.ticks == s.ticks && NoneLockedBut(s.raids, t.raids, {})
    ensures TicksHold(t)
  {
    forall id | id in t.ticks
      ensures PendingHolds(t.raids, t.ticks[id].pending)
    {
      PendingCarries(s.raids, t.raids, s.ticks[id].pending, {});
    }
  }

  lemma OnlyTick(s: State, id: Id)
    requires s.ticks.Keys == {id} && PendingHolds(s.raids, s.ticks[id].pending)
    ensures TicksHold(s)
  {
    assert forall other :: other in s.ticks ==> other in s.ticks.Keys;
  }

  lemma StepKeepsTicks(s: State, step: Step)
    requires TicksHold(s) && Enabled(s, step) && TicksInTurn(s, step)
    ensures TicksHold(Next(s, step))
  {
    hide AfterTickStep, AfterJoinStep;
    var t := Next(s, step);
    match step
    case PutConfig(_, _, _, _, _) => TicksCarry(s, t);
    case Lift(_) => TicksCarry(s, t);
    case StartTick(id, _, order) =>
      assert PendingHolds(s.raids, Snapshot(s.raids, order));
      OnlyTick(t, id);
    case AdvanceTick(id) => TickStepKeepsTicks(s, id);
    case AbortTick(_) =>
    case _ =>
      OtherKeepsRaids(s, step);
      TicksCarry(s, t);
  }

  lemma LoneTickTripsUnlocked(s: State, step: Step, server: Id)
    requires TicksHold(s)
    ensures !TripsLocked(s, step, server)
  {
    if step.AdvanceTick? && step.id in s.ticks && s.ticks[step.id].pending != [] {
      assert PendingHolds(s.raids, s.ticks[step.id].pending);
      assert WatchHolds(s.raids, s.ticks[step.id].pending[0]);
    }
  }

  ghost predicate AllInTurn(steps: seq<Step>) {
    forall i :: 0 <= i < |steps| ==> TicksInTurn(Run(steps[..i]), steps[i])
  }

  lemma {:induction false} RunKeepsTicks(steps: seq<Step>)
    requires AllInTurn(steps)
    ensures TicksHold(Run(steps))
  {
    if steps != [] {
      var n := |steps| - 1;
      assert forall i :: 0 <= i < n ==> steps[..n][..i] == steps[..i];
      RunKeepsTicks(steps[..n]);
      if Enabled(Run(steps[..n]), steps[n]) {
        StepKeepsTicks(Run(steps[..n]), steps[n]);
      }
    }
  }

  /** With one tick at a time, aborted or not, a run never trips a locked server. */
  lemma OneTickAtATime(steps: seq<Step>, server: Id)
    requires AllInTurn(steps)
    ensures NeverTripsLocked(steps, server) && RowHolds(Run(steps), server)
  {
    forall i | 0 <= i < |steps|
      ensures !TripsLocked(Run(steps[..i]), steps[i], server)
    {
      assert forall j :: 0 <= j < i ==> steps[..i][..j] == steps[..j];
      RunKeepsTicks(steps[..i]);
      LoneTickTripsUnlocked(Run(steps[..i]), steps[i], server);
    }
    RunKeepsRow(steps, server);
  }

  /** A lone tick lifts a lockdown only when the end it has at that moment has come. */
  lemma LoneTickLiftsDue(s: State, step: Step, server: Id)
    requires TicksHold(s) && LiftsServer(s, step, server) && step != Lift(server)
    requires server in s.raids && s.raids[server].lockdownActive
    ensures s.raids[server].lockdownEndsAt.Some? && s.raids[server].lockdownEndsAt.value <= s.ticks[step.id].now
  {
    assert PendingHolds(s.raids, s.ticks[step.id].pending);
    assert WatchHolds(s.raids, s.ticks[step.id].pending[0]);
  }

  /** The step is no manual lift of the server, and no step of a tick at or after the end. */
  predicate Early(s: State, step: Step, server: Id, end: Time) {
    step != Lift(server) && (step.AdvanceTick? && step.id in s.ticks ==> s.ticks[step.id].now < end)
  }

  ghost predicate EarlyFrom(steps: seq<Step>, i: nat, server: Id, end: Time) {
    forall k :: i <= k < |steps| ==> Early(Run(steps[..k]), steps[k], server, end)
  }

  /** With one tick at a time a lockdown stands, with its end, until a manual lift or a tick at or
      after that end. */
  lemma {:induction false} LockdownStands(steps: seq<Step>, i: nat, server: Id, end: Time)
    requires i <= |steps| && AllInTurn(steps) && EarlyFrom(steps, i, server, end)
    requires server in Run(steps[..i]).raids && Run(steps[..i]).raids[server].lockdownActive
    requires Run(steps[..i]).raids[server].lockdownEndsAt == Some(end)
    ensures server in Run(steps).raids && Run(steps).raids[server].lockdownActive
    ensures Run(steps).raids[server].lockdownEndsAt == Some(end)
    decreases |steps|
  {
    hide Next, Enabled, TicksHold, LiftsServer, TripsLocked;
    if i == |steps| {
      assert steps[..i] == steps;
    } else {
      var n := |steps| - 1;
      var s, step := Run(steps[..n]), steps[n];
      assert forall k :: 0 <= k < n ==> steps[..n][..k] == steps[..k];
      assert steps[..n][..i] == steps[..i];
      LockdownStands(steps[..n], i, server, end);
      RunKeepsTicks(steps[..n]);
      if Enabled(s, step) {
        assert Early(s, step, server, end);
        LiftedIff(s, step, server);
        LoneTickTripsUnlocked(s, step, server);
        EndChangesByLiftOnly(s, step, server);
        if LiftsServer(s, step, server) {
          LoneTickLiftsDue(s, step, server);
          AdvancesKnownTick(s, step, server);
        }
      }
    }
  }

  lemma AdvancesKnownTick(s: State, step: Step, server: Id)
    requires LiftsServer(s, step, server) && step != Lift(server)
    ensures step.AdvanceTick? && step.id in s.ticks
  {
  }

  // ----- a tick lifts what is due -----

  /** The row is enabled and locked, and its end has come. */
  predicate IsDue(s: State, server: Id, now: Time) {
    && server in s.raids && s.raids[server].enabled && s.raids[server].lockdownActive
    && s.raids[server].lockdownEndsAt.Some? && s.raids[server].lockdownEndsAt.value <= now
  }

  ghost predicate StillToDo(s: State, tick: Id, w: Watched, now: Time) {
    tick in s.ticks && s.ticks[tick].now == now && w in s.ticks[tick].pending
  }

  ghost predicate LiftedSince(s: State, n: nat, server: Id) {
    n <= |s.raidLog| && Lifted(server) in s.raidLog[n..]
  }

  lemma LogGrows(s: State, step: Step)
    requires Enabled(s, step)
    ensures s.raidLog <= Next(s, step).raidLog
  {
    if step.AdvanceJoin? {
      OtherKeepsRaids(s, step);
    }
  }

  lemma StepLifts(s: State, step: Step, tick: Id, w: Watched, now: Time)
    requires Enabled(s, step) && StillToDo(s, tick, w, now) && w.server in s.raids && step != AbortTick(tick)
    requires w.row.lockdownActive && w.row.lockdownEndsAt.Some? && w.row.lockdownEndsAt.value <= now
    ensures var t := Next(s, step);
            StillToDo(t, tick, w, now) || t.raidLog == s.raidLog + [Lifted(w.server)]
  {
    match step
    case AdvanceTick(id) =>
      var pending := s.ticks[id].pending;
      if id == tick {
        assert pending == [pending[0]] + pending[1..];
      }
    case AdvanceJoin(_, _) => OtherKeepsRaids(s, step);
    case _ =>
  }

  lemma RaidRowsStay(s: State, step: Step, server: Id)
    requires Enabled(s, step) && server in s.raids
    ensures server in Next(s, step).raids
  {
    if step.AdvanceJoin? {
      OtherKeepsRaids(s, step);
    }
  }

  /** A lockdown that is due when a tick starts is lifted before that tick is over, whatever runs in
      between, if only that tick is not aborted. */
  lemma {:induction false} TickLiftsDue(steps: seq<Step>, i: nat, server: Id)
    requires i < |steps| && steps[i].StartTick? && Enabled(Run(steps[..i]), steps[i])
    requires AbortTick(steps[i].id) !in steps[i..]
    requires IsDue(Run(steps[..i]), server, steps[i].now)
    ensures var s, t := Run(steps[..i]), Run(steps);
            && server in s.raids && server in t.raids
            && (|| LiftedSince(t, |s.raidLog|, server)
                || (s.raidLog <= t.raidLog && StillToDo(t, steps[i].id, Watched(server, s.raids[server]), steps[i].now)))
    decreases |steps|
  {
    var n := |steps| - 1;
    var u, step := Run(steps[..n]), steps[n];
    var s := Run(steps[..i]);
    if i == n {
      var k :| 0 <= k < |step.order| && step.order[k] == server;
      assert Snapshot(s.raids, step.order)[k] == Watched(server, s.raids[server]);
    } else {
      assert steps[..n][..i] == steps[..i] && steps[i..] == steps[..n][i..] + [step];
      TickLiftsDue(steps[..n], i, server);
      if Enabled(u, step) {
        LogGrows(u, step);
        RaidRowsStay(u, step, server);
        if LiftedSince(u, |s.raidLog|, server) {
          assert Run(steps).raidLog[|s.raidLog|..][..|u.raidLog| - |s.raidLog|] == u.raidLog[|s.raidLog|..];
        } else {
          StepLifts(u, step, steps[i].id, Watched(server, s.raids[server]), steps[i].now);
          var t := Next(u, step);
          if t.raidLog == u.raidLog + [Lifted(server)] {
            assert t.raidLog[|s.raidLog|..][|u.raidLog| - |s.raidLog|] == Lifted(server);
          }
        }
      }
    }
  }

  // ----- joins under a lockdown -----

  predicate HasCommit(commits: seq<Commit>, join: Id) {
    exists k :: 0 <= k < |commits| && commits[k].join == join
  }

  lemma HasCommitPush(commits: seq<Commit>, c: Commit, join: Id)
    ensures HasCommit(commits + [c], join) <==> HasCommit(commits, join) || c.join == join
  {
    var r := commits + [c];
    assert forall k :: 0 <= k < |commits| ==> r[k] == commits[k];
    assert r[|commits|] == c;
  }

  /** A request carries the end of the lockdown it read, and its commit shows it. */
  predicate CarriesLockdown(s: State, join: Id) {
    join in s.joins ==>
      var j := s.joins[join];
      && (j.lockdown.Some? ==> j.stage.Admitted? || j.stage.Ended?)
      && (j.stage.Admitted? ==> j.stage.timeoutUntil == j.lockdown)
      && (j.stage == Ended(Joined) ==> HasCommit(s.commits, join))
  }

  predicate CommitShowsLockdown(s: State, c: Commit) {
    && c.join in s.joins && s.joins[c.join].stage == Ended(Joined)
    && c.timeoutUntil == s.joins[c.join].lockdown
  }

  ghost predicate LockdownsHold(s: State) {
    && (forall join :: CarriesLockdown(s, join))
    && (forall k {:trigger s.commits[k]} :: 0 <= k < |s.commits| ==> CommitShowsLockdown(s, s.commits[k]))
  }

  lemma LockdownsCarry(s: State, t: State)
    requires LockdownsHold(s) && t.commits == s.commits
    requires forall join {:trigger s.joins[join]} :: join in s.joins ==> join in t.joins && t.joins[join] == s.joins[join]
    requires forall join {:trigger t.joins[join]} :: join in t.joins && join !in s.joins ==> CarriesLockdown(t, join)
    ensures LockdownsHold(t)
  {
    forall join
      ensures CarriesLockdown(t, join)
    {
      assert CarriesLockdown(s, join);
    }
    forall k | 0 <= k < |t.commits|
      ensures CommitShowsLockdown(t, t.commits[k])
    {
      assert CommitShowsLockdown(s, s.commits[k]);
    }
  }

  lemma OtherKeepsJoins(s: State, step: Step)
    requires Enabled(s, step) && !step.AdvanceJoin?
    ensures var t := Next(s, step);
            t.commits == s.commits
            && if step.StartJoin? then t.joins == s.joins[step.id := Join(step.user, step.invite, Begun, None)]
               else t.joins == s.joins
  {
  }

  ghost predicate EndsHold(s: State) {
    forall server :: EndSet(s, server)
  }

  /** A request that reads an active lockdown carries its end on, or is refused if joins pause. */
  lemma RaidReadCarriesEnd(s: State, id: Id, now: Time)
    requires EndsHold(s) && ReadsHold(s) && id in s.joins && s.joins[id].stage.NotBanned?
    ensures var j := s.joins[id];
            var server := j.stage.invite.server;
            var k := AfterJoinStep(s, id, now).joins[id];
            && server.Some?
            && if server.value in s.raids && s.raids[server.value].lockdownActive then
                 && s.raids[server.value].lockdownEndsAt.Some?
                 && k.lockdown == s.raids[server.value].lockdownEndsAt
                 && k.stage == (if s.raids[server.value].action == PauseInvites then Ended(LockedDown)
                                else Admitted(j.stage.invite, k.lockdown))
               else k.lockdown == None && k.stage == Admitted(j.stage.invite, None)
  {
    assert Reads(s, id);
    assert EndSet(s, s.joins[id].stage.invite.server.value);
  }

  lemma JoinStepCarries(s: State, id: Id, now: Time)
    requires EndsHold(s) && ReadsHold(s) && LockdownsHold(s) && id in s.joins && !Commits(s, id, now)
    ensures CarriesLockdown(AfterJoinStep(s, id, now), id)
  {
    assert CarriesLockdown(s, id) && Reads(s, id);
    hide EndsHold, ReadsHold, LockdownsHold, Commits, Refusal, Consumable;
    if s.joins[id].stage.NotBanned? {
      RaidReadCarriesEnd(s, id, now);
    }
  }

  lemma JoinStepKeepsLockdowns(s: State, id: Id, now: Time)
    requires EndsHold(s) && ReadsHold(s) && LockdownsHold(s) && id in s.joins
    ensures LockdownsHold(AfterJoinStep(s, id, now))
  {
    var t := AfterJoinStep(s, id, now);
    assert CarriesLockdown(s, id);
    if Commits(s, id, now) {
      JoinStepCases(s, id, now);
      CommitKeepsLockdowns(s, id, now);
    } else {
      JoinStepCarries(s, id, now);
      ReadStep(s, id, now);
      hide AfterJoinStep;
      forall join
        ensures CarriesLockdown(t, join)
      {
        assert CarriesLockdown(s, join);
      }
      forall k | 0 <= k < |t.commits|
        ensures CommitShowsLockdown(t, t.commits[k])
      {
        assert CommitShowsLockdown(s, s.commits[k]);
      }
    }
  }

  lemma CommitKeepsLockdowns(s: State, id: Id, now: Time)
    requires LockdownsHold(s) && Commits(s, id, now)
    ensures LockdownsHold(Committed(s, id, now))
  {
    var t := Committed(s, id, now);
    assert CarriesLockdown(s, id);
    forall join
      ensures CarriesLockdown(t, join)
    {
      assert CarriesLockdown(s, join);
      HasCommitPush(s.commits, t.commits[|s.commits|], join);
    }
    forall k | 0 <= k < |t.commits|
      ensures CommitShowsLockdown(t, t.commits[k])
    {
      if k < |s.commits| {
        assert t.commits[k] == s.commits[k] && CommitShowsLockdown(s, s.commits[k]);
      }
    }
  }

  lemma StepKeepsLockdowns(s: State, step: Step)
    requires EndsHold(s) && ReadsHold(s) && LockdownsHold(s) && Enabled(s, step)
    ensures LockdownsHold(Next(s, step))
  {
    if step.AdvanceJoin? {
      JoinStepKeepsLockdowns(s, step.id, step.now);
    } else {
      OtherKeepsJoins(s, step);
      LockdownsCarry(s, Next(s, step));
    }
  }

  /** In every run, overlapping ticks or not. */
  lemma {:induction false} RunKeepsLockdowns(steps: seq<Step>)
    ensures LockdownsHold(Run(steps))
  {
    if steps != [] {
      var n := |steps| - 1;
      RunKeepsLockdowns(steps[..n]);
      forall server
        ensures EndSet(Run(steps[..n]), server)
      {
        RunKeepsEnds(steps[..n], server);
      }
      RunKeepsInvites(steps[..n]);
      if Enabled(Run(steps[..n]), steps[n]) {
        StepKeepsLockdowns(Run(steps[..n]), steps[n]);
      }
    }
  }

  /** A join that read an active lockdown was refused in the end, or left a member who is timed out
      until the end it read. */
  lemma LockdownTimesOut(steps: seq<Step>, join: Id)
    requires join in Run(steps).joins && Run(steps).joins[join].lockdown.Some?
    requires Run(steps).joins[join].stage.Ended?
    ensures var s := Run(steps);
            || s.joins[join].stage.outcome != Joined
            || exists k :: 0 <= k < |s.commits| && s.commits[k].join == join
                           && s.commits[k].timeoutUntil == s.joins[join].lockdown
  {
    RunKeepsLockdowns(steps);
    var s := Run(steps);
    assert CarriesLockdown(s, join);
    if s.joins[join].stage.outcome == Joined {
      var k :| 0 <= k < |s.commits| && s.commits[k].join == join;
      assert CommitShowsLockdown(s, s.commits[k]);
    }
  }

  // ----- ticks that overlap -----

  /** Two ticks that both read the row before either writes it, with joins enough for both: the
      second trips the server again and moves the end, with no lift between. */
  lemma OverlappingTicksMoveTheEnd(s: State, first: Id, second: Id, server: Id)
    requires first in s.ticks && second in s.ticks && first != second && server in s.raids
    requires var a, b, w := s.ticks[first], s.ticks[second], Watched(server, s.raids[server]);
             && a.pending != [] && a.pending[0] == w && b.pending != [] && b.pending[0] == w
             && !w.row.lockdownActive && a.now != b.now
             && RecentJoins(s.members, server, a.now - w.row.joinWindowSec * 1000) >= w.row.joinThreshold
             && RecentJoins(s.members, server, b.now - w.row.joinWindowSec * 1000) >= w.row.joinThreshold
    ensures var a, b := s.ticks[first].now, s.ticks[second].now;
            var t := AfterTickStep(s, first);
            var u := AfterTickStep(t, second);
            && TripsLocked(t, AdvanceTick(second), server)
            && t.raids == s.raids[server := Locked(s.raids[server], a + RAID_LOCKDOWN_MS)]
            && u.raids == s.raids[server := Locked(s.raids[server], b + RAID_LOCKDOWN_MS)]
            && u.raidLog == s.raidLog + [Tripped(server, a), Tripped(server, b)]
  {
  }
}
