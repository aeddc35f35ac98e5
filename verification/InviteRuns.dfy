/** What holds of invites in every run of concurrent joins, revocations and bans. */
module InviteRuns {
  import opened ServerAccess
  import opened Wrappers

  /** The joins committed through an invite. */
  function Through(commits: seq<Commit>, invite: Id): nat {
    if commits == [] then 0
    else
      var n := |commits| - 1;
      Through(commits[..n], invite) + if commits[n].invite == invite then 1 else 0
  }

  /** The counter is the number of joins committed, and within the limit. */
  predicate CountsJoins(s: State, invite: Id) {
    if invite in s.invites then
      var row := s.invites[invite];
      row.uses == Through(s.commits, invite) && (row.maxUses.Some? ==> row.uses <= row.maxUses.value)
    else Through(s.commits, invite) == 0
  }

  ghost predicate UsesHold(s: State) {
    forall invite :: CountsJoins(s, invite)
  }

  predicate HasSnapshot(stage: Stage) {
    stage.HasInvite? || stage.NotMember? || stage.NotBanned? || stage.Admitted?
  }

  /** What a join request read of its invite, as far as invites do not change. */
  predicate Reads(s: State, id: Id) {
    id in s.joins && HasSnapshot(s.joins[id].stage) ==>
      var j := s.joins[id];
      && j.invite in s.invites
      && j.stage.invite.server.Some? && j.stage.invite.scope == ServerScope
      && s.invites[j.invite].scope == ServerScope
      && j.stage.invite.maxUses == s.invites[j.invite].maxUses
      && j.stage.invite.server == s.invites[j.invite].server
  }

  ghost predicate ReadsHold(s: State) {
    forall id :: Reads(s, id)
  }

  ghost predicate InvitesHold(s: State) {
    UsesHold(s) && ReadsHold(s)
  }

  lemma UsesCarry(s: State, t: State)
    requires UsesHold(s) && t.invites == s.invites && t.commits == s.commits
    ensures UsesHold(t)
  {
    forall invite
      ensures CountsJoins(t, invite)
    {
      assert CountsJoins(s, invite);
    }
  }

  /** A join step that does not commit moves that join alone. */
  lemma ReadStep(s: State, id: Id, now: Time)
    requires id in s.joins && !Commits(s, id, now)
    ensures var t := AfterJoinStep(s, id, now);
            && id in t.joins && t == s.(joins := s.joins[id := t.joins[id]])
            && t.joins[id].user == s.joins[id].user && t.joins[id].invite == s.joins[id].invite
  {
    hide Consumable, Refusal, Commits;
  }

  /** A stage that goes on keeps the invite as it was read, the first of them just read it. */
  lemma ReadsOn(s: State, id: Id, now: Time)
    requires id in s.joins && !Commits(s, id, now) && Reads(s, id)
    ensures Reads(AfterJoinStep(s, id, now), id)
  {
    hide Consumable, Refusal, Commits;
    match s.joins[id].stage
    case Begun =>
    case HasInvite(_) =>
    case NotMember(_) =>
    case NotBanned(_) =>
    case Admitted(_, _) =>
    case Ended(_) =>
  }

  lemma ReadKeepsInvites(s: State, id: Id, now: Time)
    requires InvitesHold(s) && id in s.joins && !Commits(s, id, now)
    ensures InvitesHold(AfterJoinStep(s, id, now))
  {
    hide AfterJoinStep, Commits, UsesHold;
    var t := AfterJoinStep(s, id, now);
    ReadStep(s, id, now);
    assert Reads(s, id);
    ReadsOn(s, id, now);
    forall other
      ensures Reads(t, other)
    {
      assert Reads(s, other);
    }
    UsesCarry(s, t);
  }

  lemma CommitKeepsInvites(s: State, id: Id, now: Time)
    requires InvitesHold(s) && Commits(s, id, now)
    ensures InvitesHold(Committed(s, id, now))
  {
    var t := Committed(s, id, now);
    var j := s.joins[id];
    assert Reads(s, id) && CountsJoins(s, j.invite);
    forall other
      ensures CountsJoins(t, other)
    {
      assert CountsJoins(s, other);
    }
    forall other
      ensures Reads(t, other)
    {
      assert Reads(s, other);
    }
  }

  /** Creating or revoking an invite, or starting a join. */
  lemma RowStep(s: State, step: Step)
    requires InvitesHold(s) && Enabled(s, step)
    requires step.CreateInvite? || step.Revoke? || step.StartJoin?
    ensures InvitesHold(Next(s, step))
  {
    var t := Next(s, step);
    forall id
      ensures CountsJoins(t, id) && Reads(t, id)
    {
      assert CountsJoins(s, id) && Reads(s, id);
    }
  }

  lemma StepKeepsInvites(s: State, step: Step)
    requires InvitesHold(s) && Enabled(s, step)
    ensures InvitesHold(Next(s, step))
  {
    hide InvitesHold, Committed, Commits;
    match step
    case AdvanceJoin(id, now) =>
      if Commits(s, id, now) {
        JoinStepCases(s, id, now);
        CommitKeepsInvites(s, id, now);
      } else {
        ReadKeepsInvites(s, id, now);
      }
    case CreateInvite(_, _) => RowStep(s, step);
    case Revoke(_, _) => RowStep(s, step);
    case StartJoin(_, _, _) => RowStep(s, step);
    case _ =>
      InvitesCarry(s, Next(s, step));
  }

  lemma JoinStepCases(s: State, id: Id, now: Time)
    requires id in s.joins && Commits(s, id, now)
    ensures AfterJoinStep(s, id, now) == Committed(s, id, now)
  {
  }

  lemma InvitesCarry(s: State, t: State)
    requires InvitesHold(s) && t.invites == s.invites && t.joins == s.joins && t.commits == s.commits
    ensures InvitesHold(t)
  {
    UsesCarry(s, t);
    forall id
      ensures Reads(t, id)
    {
      assert Reads(s, id);
    }
  }

  /** In every run the uses of an invite are the joins committed through it, and never too many. */
  lemma {:induction false} RunKeepsInvites(steps: seq<Step>)
    ensures InvitesHold(Run(steps))
  {
    if steps != [] {
      var n := |steps| - 1;
      RunKeepsInvites(steps[..n]);
      if Enabled(Run(steps[..n]), steps[n]) {
        StepKeepsInvites(Run(steps[..n]), steps[n]);
      }
    }
  }

  // ----- no commit through a revoked or expired invite, nor for a banned user -----

  predicate Open(row: Invite, now: Time) {
    && row.revokedAt == None && row.scope == ServerScope
    && (row.expiresAt.Some? ==> row.expiresAt.value > now)
    && (row.maxUses.Some? ==> row.uses < row.maxUses.value)
  }

  /** The step advances an admitted join whose invite is open at that moment, and whose user is
      then neither banned nor a member. */
  ghost predicate ReachesOpenInvite(s: State, step: Step) {
    && step.AdvanceJoin? && step.id in s.joins && s.joins[step.id].stage.Admitted?
    && var j := s.joins[step.id];
       && j.stage.invite.server.Some?
       && j.invite in s.invites && Open(s.invites[j.invite], step.now)
       && SeatOf(j, j.stage.invite) !in s.banned && SeatOf(j, j.stage.invite) !in s.members
  }

  /** Just such a step adds a commit, the one of that join; no other step does. */
  lemma CommitIffOpen(s: State, step: Step)
    requires InvitesHold(s) && Enabled(s, step)
    ensures var t := Next(s, step);
            if ReachesOpenInvite(s, step) then
              var j := s.joins[step.id];
              var seat := SeatOf(j, j.stage.invite);
              && t.commits == s.commits + [Commit(step.id, j.invite, seat, step.now, j.stage.timeoutUntil)]
              && seat in t.members && t.members[seat] == Member(step.now, j.stage.timeoutUntil)
              && step.id in t.joins && t.joins[step.id].stage == Ended(Joined)
            else t.commits == s.commits
  {
    if step.AdvanceJoin? {
      assert Reads(s, step.id);
      if !Commits(s, step.id, step.now) {
        ReadStep(s, step.id, step.now);
      }
    } else {
      OtherCommits(s, step);
    }
  }

  lemma OtherCommits(s: State, step: Step)
    requires Enabled(s, step) && !step.AdvanceJoin?
    ensures Next(s, step).commits == s.commits
  {
  }

  /** Every step from position i on that advances a join does so at or after `time`. */
  predicate NotBefore(steps: seq<Step>, i: nat, time: Time) {
    forall k :: i <= k < |steps| && steps[k].AdvanceJoin? ==> steps[k].now >= time
  }

  ghost predicate Shut(s: State, invite: Id, steps: seq<Step>, i: nat) {
    && invite in s.invites
    && (|| s.invites[invite].revokedAt.Some?
        || (s.invites[invite].expiresAt.Some? && NotBefore(steps, i, s.invites[invite].expiresAt.value)))
  }

  lemma StepKeepsShut(s: State, step: Step, invite: Id)
    requires InvitesHold(s) && Enabled(s, step) && invite in s.invites
    ensures var t := Next(s, step);
            && invite in t.invites
            && t.invites[invite].expiresAt == s.invites[invite].expiresAt
            && (s.invites[invite].revokedAt.Some? ==> t.invites[invite].revokedAt.Some?)
  {
    if step.AdvanceJoin? {
      if !Commits(s, step.id, step.now) {
        ReadStep(s, step.id, step.now);
      }
    } else {
      RowsStay(s, step, invite);
    }
  }

  lemma RowsStay(s: State, step: Step, invite: Id)
    requires Enabled(s, step) && !step.AdvanceJoin? && invite in s.invites
    ensures var t := Next(s, step);
            && invite in t.invites
            && t.invites[invite].expiresAt == s.invites[invite].expiresAt
            && (s.invites[invite].revokedAt.Some? ==> t.invites[invite].revokedAt.Some?)
  {
  }

  /** Once an invite is revoked, or expired for all that follows, no join commits through it:
      whatever a request read before, the uses stay what they were. */
  lemma {:induction false} ShutInviteIsFrozen(steps: seq<Step>, i: nat, invite: Id)
    requires i <= |steps| && Shut(Run(steps[..i]), invite, steps, i)
    ensures var was, now := Run(steps[..i]).invites, Run(steps).invites;
            && invite in was && invite in now && now[invite].expiresAt == was[invite].expiresAt
            && (was[invite].revokedAt.Some? ==> now[invite].revokedAt.Some?)
    ensures Through(Run(steps).commits, invite) == Through(Run(steps[..i]).commits, invite)
    ensures Run(steps).invites[invite].uses == Run(steps[..i]).invites[invite].uses
    decreases |steps|
  {
    hide Next, Enabled;
    RunKeepsInvites(steps);
    RunKeepsInvites(steps[..i]);
    assert CountsJoins(Run(steps), invite) && CountsJoins(Run(steps[..i]), invite);
    if i == |steps| {
      assert steps[..i] == steps;
    } else {
      var n := |steps| - 1;
      var s, step := Run(steps[..n]), steps[n];
      assert steps[..n][..i] == steps[..i];
      ShutInviteIsFrozen(steps[..n], i, invite);
      RunKeepsInvites(steps[..n]);
      if Enabled(s, step) {
        StepKeepsShut(s, step, invite);
        CommitIffOpen(s, step);
        if ReachesOpenInvite(s, step) {
          assert s.joins[step.id].invite != invite;
        }
      }
    }
  }
}
