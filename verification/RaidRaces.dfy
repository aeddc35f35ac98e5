/** Runs from the empty database in which watch ticks of two workers overlap. */
module RaidRaces {
  import opened ServerAccess
  import opened RaidRuns
  import opened Wrappers

  lemma RunPush(steps: seq<Step>, step: Step)
    requires Enabled(Run(steps), step)
    ensures Run(steps + [step]) == Next(Run(steps), step)
  {
    assert (steps + [step])[..|steps|] == steps;
  }

  /** The least threshold that can be configured. */
  const GUARDED: Raid := Raid(true, 60, 2, Quarantine, false, None)

  const TWO_JOINS: map<Seat, Member> := map[Seat(1, 1) := Member(0, None), Seat(1, 2) := Member(0, None)]

  const GUARDED_STEPS: seq<Step> :=
    [Enroll(Seat(1, 1), 0)] + [Enroll(Seat(1, 2), 0)] + [PutConfig(1, true, 60, 2, Quarantine)]

  lemma GuardedRun()
    ensures Run(GUARDED_STEPS) == EMPTY.(members := TWO_JOINS, raids := map[1 := GUARDED])
  {
    var s0: seq<Step> := [];
    var s1: seq<Step> := [Enroll(Seat(1, 1), 0)];
    var s2 := s1 + [Enroll(Seat(1, 2), 0)];
    assert s0 + [Enroll(Seat(1, 1), 0)] == s1;
    RunPush(s0, Enroll(Seat(1, 1), 0));
    RunPush(s1, Enroll(Seat(1, 2), 0));
    RunPush(s2, PutConfig(1, true, 60, 2, Quarantine));
  }

  const READ_STEPS: seq<Step> := GUARDED_STEPS + [StartTick(1, 0, [1])] + [StartTick(2, 5, [1])]

  /** Both workers read the row, at times 0 and 5. */
  lemma ReadRun()
    ensures Run(READ_STEPS) ==
            EMPTY.(members := TWO_JOINS, raids := map[1 := GUARDED],
                   ticks := map[1 := Tick(0, [Watched(1, GUARDED)]), 2 := Tick(5, [Watched(1, GUARDED)])])
  {
    hide Run;
    GuardedRun();
    var s := Run(GUARDED_STEPS);
    var begun := GUARDED_STEPS + [StartTick(1, 0, [1])];
    assert ListsEnabled(s.raids, [1]) by { assert 1 in [1]; }
    RunPush(GUARDED_STEPS, StartTick(1, 0, [1]));
    assert Snapshot(s.raids, [1]) == [Watched(1, GUARDED)];
    RunPush(begun, StartTick(2, 5, [1]));
  }

  lemma TwoRecent(windowStart: Time)
    requires windowStart <= 0
    ensures RecentJoins(TWO_JOINS, 1, windowStart) == 2
  {
    assert (set seat | seat in TWO_JOINS && seat.server == 1 && TWO_JOINS[seat].joinedAt >= windowStart)
        == {Seat(1, 1), Seat(1, 2)};
  }

  /** Each then trips the server: the end moves by 5 and there is no lift in the log. */
  lemma OverlapRun()
    ensures var s := Run(READ_STEPS + [AdvanceTick(1)] + [AdvanceTick(2)]);
            && s.raids == map[1 := Locked(GUARDED, 5 + RAID_LOCKDOWN_MS)]
            && s.raidLog == [Tripped(1, 0), Tripped(1, 5)] && !RowHolds(s, 1)
  {
    hide Run;
    ReadRun();
    TwoRecent(-60_000);
    TwoRecent(5 - 60_000);
    var s := Run(READ_STEPS);
    OverlappingTicksMoveTheEnd(s, 1, 2, 1);
    RunPush(READ_STEPS, AdvanceTick(1));
    RunPush(READ_STEPS + [AdvanceTick(1)], AdvanceTick(2));
    var u := Run(READ_STEPS + [AdvanceTick(1)] + [AdvanceTick(2)]);
    assert u.raidLog == [] + [Tripped(1, 0), Tripped(1, 5)];
    assert u.raidLog[..1] == [Tripped(1, 0)] && u.raidLog[..0] == [];
    assert StandingTrip(u.raidLog[..1], 1) == Some(0);
    assert u.raidLog[1].Tripped?;
  }

  // ----- a stale tick lifts a new lockdown -----

  const DUE: Time := RAID_LOCKDOWN_MS

  /** The first tick trips the server; the second reads that lockdown when it is due. */
  const TRIPPED_STEPS: seq<Step> := GUARDED_STEPS + [StartTick(1, 0, [1])] + [AdvanceTick(1)]

  const DUE_STEPS: seq<Step> := TRIPPED_STEPS + [StartTick(2, DUE, [1])]

  const STALE: Tick := Tick(DUE, [Watched(1, Locked(GUARDED, DUE))])

  lemma TrippedRun()
    ensures var s := Run(TRIPPED_STEPS);
            s.members == TWO_JOINS && s.raids == map[1 := Locked(GUARDED, DUE)] && s.ticks == map[1 := Tick(0, [])]
  {
    hide Run, RecentJoins;
    GuardedRun();
    assert ListsEnabled(map[1 := GUARDED], [1]) by { assert 1 in [1]; }
    RunPush(GUARDED_STEPS, StartTick(1, 0, [1]));
    assert Snapshot(map[1 := GUARDED], [1]) == [Watched(1, GUARDED)];
    TwoRecent(-60_000);
    RunPush(GUARDED_STEPS + [StartTick(1, 0, [1])], AdvanceTick(1));
    assert Run(TRIPPED_STEPS).ticks[1].pending == [];
  }

  lemma DueRun()
    ensures var s := Run(DUE_STEPS);
            && s.members == TWO_JOINS && s.raids == map[1 := Locked(GUARDED, DUE)]
            && s.ticks == map[1 := Tick(0, []), 2 := STALE]
  {
    hide Run;
    TrippedRun();
    assert ListsEnabled(map[1 := Locked(GUARDED, DUE)], [1]) by { assert 1 in [1]; }
    RunPush(TRIPPED_STEPS, StartTick(2, DUE, [1]));
    assert Snapshot(map[1 := Locked(GUARDED, DUE)], [1]) == [Watched(1, Locked(GUARDED, DUE))];
  }

  /** A moderator lifts it, and two more join. */
  const LIFTED_STEPS: seq<Step> :=
    DUE_STEPS + [Lift(1)] + [Enroll(Seat(1, 3), DUE)] + [Enroll(Seat(1, 4), DUE)]

  const FOUR_JOINS: map<Seat, Member> :=
    TWO_JOINS[Seat(1, 3) := Member(DUE, None)][Seat(1, 4) := Member(DUE, None)]

  lemma LiftedRun()
    ensures var s := Run(LIFTED_STEPS);
            && s.members == FOUR_JOINS && s.raids == map[1 := GUARDED]
            && s.ticks == map[1 := Tick(0, []), 2 := STALE]
  {
    hide Run;
    DueRun();
    var lifted := DUE_STEPS + [Lift(1)];
    RunPush(DUE_STEPS, Lift(1));
    RunPush(lifted, Enroll(Seat(1, 3), DUE));
    RunPush(lifted + [Enroll(Seat(1, 3), DUE)], Enroll(Seat(1, 4), DUE));
  }

  /** A third tick reads the row as not locked. */
  const AGAIN_STEPS: seq<Step> := LIFTED_STEPS + [StartTick(3, DUE + 1, [1])]

  lemma AgainRun()
    ensures var s := Run(AGAIN_STEPS);
            && s.members == FOUR_JOINS && s.raids == map[1 := GUARDED]
            && s.ticks == map[1 := Tick(0, []), 2 := STALE, 3 := Tick(DUE + 1, [Watched(1, GUARDED)])]
  {
    hide Run;
    LiftedRun();
    assert ListsEnabled(map[1 := GUARDED], [1]) by { assert 1 in [1]; }
    RunPush(LIFTED_STEPS, StartTick(3, DUE + 1, [1]));
    assert Snapshot(map[1 := GUARDED], [1]) == [Watched(1, GUARDED)];
  }

  lemma TwoMoreRecent()
    ensures RecentJoins(FOUR_JOINS, 1, DUE + 1 - 60_000) == 2
  {
    assert (set seat | seat in FOUR_JOINS && seat.server == 1 && FOUR_JOINS[seat].joinedAt >= DUE + 1 - 60_000)
        == {Seat(1, 3), Seat(1, 4)};
  }

  /** That tick trips the server again, and the second tick, when it comes to the row, lifts the new
      lockdown, a quarter of an hour before its end. */
  lemma StaleTickRun()
    ensures Run(AGAIN_STEPS + [AdvanceTick(3)]).raids == map[1 := Locked(GUARDED, DUE + 1 + RAID_LOCKDOWN_MS)]
    ensures Run(AGAIN_STEPS + [AdvanceTick(3)] + [AdvanceTick(2)]).raids == map[1 := GUARDED]
  {
    hide Run, RecentJoins;
    AgainRun();
    TwoMoreRecent();
    RunPush(AGAIN_STEPS, AdvanceTick(3));
    RunPush(AGAIN_STEPS + [AdvanceTick(3)], AdvanceTick(2));
  }
}
