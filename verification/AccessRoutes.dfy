/** The routes and the watch loop over the database. Methods make steps of module ServerAccess. */
module AccessRoutes {
  import opened ServerAccess
  import opened Wrappers

  /** The state after a tick went through the rows it read, with nothing else in between. */
  function Ticked(s: State, rows: seq<Watched>, now: Time): State {
    if rows == [] then s
    else
      var n := |rows| - 1;
      AfterWatch(Ticked(s, rows[..n], now), rows[n], now)
  }

  function TickSteps(s: State, id: Id, n: nat): State {
    if n == 0 then s
    else
      var t := TickSteps(s, id, n - 1);
      if id in t.ticks then AfterTickStep(t, id) else t
  }

  class Database {
    var invites: map<Id, Invite>
    var members: map<Seat, Member>
    var banned: set<Seat>
    var raids: map<Id, Raid>
    var joins: map<Id, Join>
    ghost var ticks: map<Id, Tick>
    ghost var commits: seq<Commit>
    ghost var raidLog: seq<RaidEvent>

    ghost function Abstract(): State
      reads this
    {
      State(invites, members, banned, raids, joins, ticks, commits, raidLog)
    }

    /** The transaction of a join: what an early return left undone is rolled back. */
    method Transaction(id: Id, now: Time) returns (outcome: Outcome)
      requires id in joins && joins[id].stage.Admitted? && joins[id].stage.invite.server.Some?
      modifies this`invites, this`members, this`commits
      ensures if Commits(old(Abstract()), id, now) then
                outcome == Joined && Moved(Abstract(), id, Ended(Joined)) == Committed(old(Abstract()), id, now)
              else
                outcome == Refusal(old(Abstract()), id, now) && Abstract() == old(Abstract())
    {
      var join := joins[id];
      var invite := join.stage.invite;
      var seat := SeatOf(join, invite);
      if seat in banned {
        return MemberBanned;
      }
      var before := invites;
      var consumed := 0;
      if join.invite in invites && Consumable(invites[join.invite], invite, now) {
        var row := invites[join.invite];
        invites := invites[join.invite := row.(uses := row.uses + 1)];
        consumed := 1;
      }
      if consumed == 0 {
        return FullyUsed;
      }
      if seat in members {
        invites := before;
        return DuplicateMember;
      }
      members := members[seat := Member(now, join.stage.timeoutUntil)];
      commits := commits + [Commit(id, join.invite, seat, now, join.stage.timeoutUntil)];
      return Joined;
    }

    /** The next stretch of a join request. */
    method AdvanceJoin(id: Id, now: Time)
      requires id in joins
      modifies this
      ensures Abstract() == AfterJoinStep(old(Abstract()), id, now)
    {
      var join := joins[id];
      match join.stage {
        case Begun =>
          joins := joins[id := join.(stage := AfterInviteRead(Row(invites, join.invite), now))];
        case HasInvite(invite) =>
          if invite.server.Some? {
            joins := joins[id := join.(stage := AfterMemberRead(invite, SeatOf(join, invite) in members))];
          }
        case NotMember(invite) =>
          if invite.server.Some? {
            joins := joins[id := join.(stage := AfterBanRead(invite, SeatOf(join, invite) in banned))];
          }
        case NotBanned(invite) =>
          if invite.server.Some? {
            var row := Row(raids, invite.server.value);
            joins := joins[id := join.(stage := AfterRaidRead(invite, row, now), lockdown := EndOfActive(row))];
          }
        case Admitted(invite, _) =>
          if invite.server.Some? {
            var outcome := Transaction(id, now);
            joins := joins[id := join.(stage := Ended(outcome))];
          }
        case Ended(_) =>
      }
    }

    method Revoke(id: Id, now: Time)
      requires id in invites
      modifies this`invites
      ensures Abstract() == Next(old(Abstract()), Step.Revoke(id, now))
    {
      invites := invites[id := invites[id].(revokedAt := Some(now))];
    }

    method PutConfig(id: Id, enabled: bool, joinWindowSec: nat, joinThreshold: nat, action: Action)
      modifies this`raids
      ensures Abstract() == AfterPut(old(Abstract()), id, enabled, joinWindowSec, joinThreshold, action)
    {
      if id in raids {
        raids := raids[id := raids[id].(
          enabled := enabled, joinWindowSec := joinWindowSec, joinThreshold := joinThreshold, action := action)];
      } else {
        raids := raids[id := Raid(enabled, joinWindowSec, joinThreshold, action, false, None)];
      }
    }

    method Lift(id: Id)
      modifies this`raids, this`raidLog
      ensures Abstract() == AfterLift(old(Abstract()), id)
    {
      if id !in raids {
        return;
      }
      raids := raids[id := raids[id].(lockdownActive := false, lockdownEndsAt := None)];
      raidLog := raidLog + [Lifted(id)];
    }

    /** One row of a watch tick. */
    method WatchRow(w: Watched, now: Time)
      modifies this`raids, this`raidLog
      ensures Abstract() == AfterWatch(old(Abstract()), w, now)
    {
      if w.row.lockdownActive {
        if w.row.lockdownEndsAt.Some? && w.row.lockdownEndsAt.value <= now {
          Lift(w.server);
        }
        return;
      }
      var windowStart := now - w.row.joinWindowSec * 1000;
      var recentJoins := RecentJoins(members, w.server, windowStart);
      if recentJoins >= w.row.joinThreshold && w.server in raids {
        var endsAt := now + RAID_LOCKDOWN_MS;
        raids := raids[w.server := raids[w.server].(lockdownActive := true, lockdownEndsAt := Some(endsAt))];
        raidLog := raidLog + [Tripped(w.server, now)];
      }
    }

    /** A watch tick that nothing interrupts. `order` is the order in which the rows were read. */
    method WatchTick(now: Time, order: seq<Id>)
      requires forall k :: 0 <= k < |order| ==> order[k] in raids
      modifies this`raids, this`raidLog
      ensures Abstract() == Ticked(old(Abstract()), Snapshot(old(raids), order), now)
    {
      var configs := Snapshot(raids, order);
      for k := 0 to |configs|
        invariant Abstract() == Ticked(old(Abstract()), configs[..k], now)
      {
        assert configs[..k + 1][..k] == configs[..k];
        WatchRow(configs[k], now);
      }
      assert configs[..|configs|] == configs;
    }
  }

  /** An uninterrupted tick is the run of its steps, row by row. */
  lemma {:induction false} TickedIsSteps(s: State, id: Id, n: nat)
    requires id in s.ticks && n <= |s.ticks[id].pending|
    ensures var t := s.ticks[id];
            TickSteps(s, id, n) ==
            Ticked(s, t.pending[..n], t.now).(ticks := s.ticks[id := t.(pending := t.pending[n..])])
  {
    hide AfterWatch;
    var t := s.ticks[id];
    if n == 0 {
      assert t.pending[0..] == t.pending;
    } else {
      var before := Ticked(s, t.pending[..n - 1], t.now);
      TickedIsSteps(s, id, n - 1);
      assert t.pending[..n][..n - 1] == t.pending[..n - 1];
      NextRow(before, id, t.(pending := t.pending[n - 1..]), TickSteps(s, id, n - 1));
      assert t.pending[n - 1..][1..] == t.pending[n..];
    }
  }

  lemma NextRow(before: State, id: Id, t: Tick, u: State)
    requires id in u.ticks && u.ticks[id] == t && t.pending != []
    requires u == before.(ticks := u.ticks)
    ensures AfterTickStep(u, id) ==
            AfterWatch(before, t.pending[0], t.now).(ticks := u.ticks[id := t.(pending := t.pending[1..])])
  {
    hide AfterWatch;
    WatchIgnoresTicks(before, u.ticks, t.pending[0], t.now);
  }

  lemma WatchIgnoresTicks(s: State, ticks: map<Id, Tick>, w: Watched, now: Time)
    ensures AfterWatch(s.(ticks := ticks), w, now) == AfterWatch(s, w, now).(ticks := ticks)
  {
    hide AfterLift, AfterTrip, RecentJoins;
    WritesIgnoreTicks(s, ticks, w.server, now);
  }

  lemma WritesIgnoreTicks(s: State, ticks: map<Id, Tick>, server: Id, now: Time)
    ensures AfterLift(s.(ticks := ticks), server) == AfterLift(s, server).(ticks := ticks)
    ensures AfterTrip(s.(ticks := ticks), server, now) == AfterTrip(s, server, now).(ticks := ticks)
  {
  }
}
