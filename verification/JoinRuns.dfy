/** What comes of a join request: whom the route lets in, and which refusal the others get. */
module JoinRuns {
  import opened InviteRuns
  import opened ServerAccess
  import opened Wrappers

  predicate HasSeat(s: State, user: Id, server: Id) {
    Seat(server, user) in s.members
  }

  predicate JoinsPaused(s: State, server: Id) {
    server in s.raids && s.raids[server].lockdownActive && s.raids[server].action == PauseInvites
  }

  /** The invite is open and belongs to a server that takes the user. */
  predicate Welcomes(s: State, user: Id, invite: Id, now: Time) {
    && invite in s.invites && Open(s.invites[invite], now) && s.invites[invite].server.Some?
    && var server := s.invites[invite].server.value;
       !HasSeat(s, user, server) && Seat(server, user) !in s.banned && !JoinsPaused(s, server)
  }

  // ----- a request with nothing in between -----

  /** The request after one stretch for each of the times. */
  function Advanced(s: State, id: Id, times: seq<Time>): (t: State)
    requires id in s.joins
    ensures id in t.joins
    decreases |times|
  {
    if times == [] then s
    else
      StretchKeepsJoin(s, id, times[0]);
      Advanced(AfterJoinStep(s, id, times[0]), id, times[1..])
  }

  lemma StretchKeepsJoin(s: State, id: Id, now: Time)
    requires id in s.joins
    ensures id in AfterJoinStep(s, id, now).joins
  {
    hide Commits, Refusal;
    if Commits(s, id, now) {
      JoinStepCases(s, id, now);
    }
  }

  /** The outcome that is due on the database as it stands, from the first read at `begun` to the
      transaction at `committed`. */
  function DueOutcome(s: State, user: Id, invite: Id, begun: Time, committed: Time): Outcome {
    if invite !in s.invites then InvalidInvite
    else
      var row := s.invites[invite];
      if row.revokedAt != None || (row.expiresAt.Some? && row.expiresAt.value < begun) then InvalidInvite
      else if row.scope == InstanceScope then NothingToJoin
      else if row.server.None? then NotServerScoped
      else if HasSeat(s, user, row.server.value) then AlreadyMember
      else if row.maxUses.Some? && row.maxUses.value <= row.uses then FullyUsed
      else if Seat(row.server.value, user) in s.banned then MemberBanned
      else if JoinsPaused(s, row.server.value) then LockedDown
      else if row.expiresAt.Some? && row.expiresAt.value <= committed then FullyUsed
      else Joined
  }

  /** How long the new member is timed out; a lockdown with no end lasts an hour. */
  function DueTimeout(s: State, server: Id, read: Time): Option<Time> {
    if server !in s.raids || !s.raids[server].lockdownActive then None
    else if s.raids[server].lockdownEndsAt.Some? then s.raids[server].lockdownEndsAt
    else Some(read + 3_600_000)
  }

  lemma {:induction false} EndedStays(s: State, id: Id, times: seq<Time>)
    requires id in s.joins && s.joins[id].stage.Ended?
    ensures Advanced(s, id, times) == s
    decreases |times|
  {
    if times != [] {
      EndedStays(s, id, times[1..]);
    }
  }

  /** What is due on a request that has read that it may go on, when it commits at `now`. */
  ghost predicate Concludes(s: State, t: State, id: Id, due: Outcome, server: Id, timeout: Option<Time>, now: Time)
    requires id in s.joins
  {
    var j := s.joins[id];
    && id in t.joins && t.joins[id].stage == Ended(due)
    && if due == Joined then
         && j.invite in s.invites
         && t.members == s.members[Seat(server, j.user) := Member(now, timeout)]
         && t.invites == s.invites[j.invite := s.invites[j.invite].(uses := s.invites[j.invite].uses + 1)]
         && t == s.(joins := t.joins, members := t.members, invites := t.invites, commits := t.commits)
       else t == s.(joins := t.joins)
  }

  lemma FromAdmitted(s: State, id: Id, row: Invite, server: Id, timeout: Option<Time>, times: seq<Time>)
    requires id in s.joins && s.joins[id].stage == Admitted(row, timeout) && |times| == 1
    requires Row(s.invites, s.joins[id].invite) == Some(row) && row.server == Some(server) && row.scope == ServerScope
    requires row.revokedAt == None && (row.maxUses.Some? ==> row.uses < row.maxUses.value)
    requires Seat(server, s.joins[id].user) !in s.members && Seat(server, s.joins[id].user) !in s.banned
    ensures var due := if row.expiresAt.Some? && row.expiresAt.value <= times[0] then FullyUsed else Joined;
            Concludes(s, Advanced(s, id, times), id, due, server, timeout, times[0])
  {
    EndedStays(AfterJoinStep(s, id, times[0]), id, times[1..]);
  }

  lemma FromNotBanned(s: State, id: Id, row: Invite, server: Id, times: seq<Time>)
    requires id in s.joins && s.joins[id].stage == NotBanned(row) && |times| == 2
    requires Row(s.invites, s.joins[id].invite) == Some(row) && row.server == Some(server) && row.scope == ServerScope
    requires row.revokedAt == None && (row.maxUses.Some? ==> row.uses < row.maxUses.value)
    requires Seat(server, s.joins[id].user) !in s.members && Seat(server, s.joins[id].user) !in s.banned
    ensures var due := if JoinsPaused(s, server) then LockedDown
                       else if row.expiresAt.Some? && row.expiresAt.value <= times[1] then FullyUsed else Joined;
            Concludes(s, Advanced(s, id, times), id, due, server, DueTimeout(s, server, times[0]), times[1])
  {
    hide Advanced, Commits, Refusal;
    var t := AfterJoinStep(s, id, times[0]);
    AdvancedFirst(s, id, times);
    if JoinsPaused(s, server) {
      EndedStays(t, id, times[1..]);
    } else {
      FromAdmitted(t, id, row, server, DueTimeout(s, server, times[0]), times[1..]);
    }
  }

  lemma AdvancedFirst(s: State, id: Id, times: seq<Time>)
    requires id in s.joins && times != []
    ensures id in AfterJoinStep(s, id, times[0]).joins
    ensures Advanced(s, id, times) == Advanced(AfterJoinStep(s, id, times[0]), id, times[1..])
  {
    StretchKeepsJoin(s, id, times[0]);
  }

  lemma FromHasInvite(s: State, id: Id, row: Invite, server: Id, begun: Time, times: seq<Time>)
    requires id in s.joins && s.joins[id].stage == HasInvite(row) && |times| == 4
    requires Row(s.invites, s.joins[id].invite) == Some(row) && row.server == Some(server) && row.scope == ServerScope
    requires row.revokedAt == None && !(row.expiresAt.Some? && row.expiresAt.value < begun)
    ensures var due := DueOutcome(s, s.joins[id].user, s.joins[id].invite, begun, times[3]);
            Concludes(s, Advanced(s, id, times), id, due, server, DueTimeout(s, server, times[2]), times[3])
  {
    hide Advanced, Commits, Refusal;
    var t := AfterJoinStep(s, id, times[0]);
    AdvancedFirst(s, id, times);
    if t.joins[id].stage.Ended? {
      EndedStays(t, id, times[1..]);
    } else {
      var u := AfterJoinStep(t, id, times[1]);
      AdvancedFirst(t, id, times[1..]);
      if u.joins[id].stage.Ended? {
        EndedStays(u, id, times[2..]);
      } else {
        FromNotBanned(u, id, row, server, times[2..]);
      }
    }
  }

  /** A request that nothing interrupts ends as is due: with the member, the use and the timeout it
      should have, or with a refusal and nothing else changed. */
  lemma UninterruptedJoin(s: State, id: Id, times: seq<Time>)
    requires id in s.joins && s.joins[id].stage == Begun && |times| == 5
    ensures var j := s.joins[id];
            var due := DueOutcome(s, j.user, j.invite, times[0], times[4]);
            var server := if due == Joined then s.invites[j.invite].server.value else 0;
            Concludes(s, Advanced(s, id, times), id, due, server, DueTimeout(s, server, times[3]), times[4])
  {
    hide Advanced, Commits, Refusal;
    var t := AfterJoinStep(s, id, times[0]);
    AdvancedFirst(s, id, times);
    if t.joins[id].stage.Ended? {
      EndedStays(t, id, times[1..]);
    } else {
      var row := t.joins[id].stage.invite;
      FromHasInvite(t, id, row, row.server.value, times[0], times[1..]);
    }
  }

  /** It lets the user in exactly if the invite, at the time of the commit, and the server welcome it. */
  lemma JoinedIffWelcome(s: State, id: Id, times: seq<Time>)
    requires id in s.joins && s.joins[id].stage == Begun && |times| == 5 && times[0] <= times[4]
    ensures Advanced(s, id, times).joins[id].stage == Ended(Joined) <==>
            Welcomes(s, s.joins[id].user, s.joins[id].invite, times[4])
  {
    UninterruptedJoin(s, id, times);
  }

  // ----- a request among others -----

  /** How many stretches a request has behind it. */
  function Rank(stage: Stage): nat {
    match stage
    case Begun => 0
    case HasInvite(_) => 1
    case NotMember(_) => 2
    case NotBanned(_) => 3
    case Admitted(_, _) => 4
    case Ended(_) => 5
  }

  /** The request has not been refused, and will not be for what it has read. */
  predicate OnCourse(s: State, id: Id) {
    && id in s.joins && Reads(s, id)
    && (s.joins[id].stage.Ended? ==> s.joins[id].stage.outcome == Joined)
    && (s.joins[id].stage.HasInvite? ==>
          var read := s.joins[id].stage.invite;
          read.maxUses.Some? ==> read.uses < read.maxUses.value)
  }

  lemma WelcomeCommits(s: State, id: Id, now: Time)
    requires OnCourse(s, id) && Welcomes(s, s.joins[id].user, s.joins[id].invite, now)
    requires s.joins[id].stage.Admitted?
    ensures Commits(s, id, now)
  {
  }

  /** While the invite and the server welcome the user at its own stretches, a request gets on. */
  lemma WelcomeStep(s: State, id: Id, now: Time)
    requires OnCourse(s, id) && Welcomes(s, s.joins[id].user, s.joins[id].invite, now)
    requires Rank(s.joins[id].stage) < 5
    ensures var t := AfterJoinStep(s, id, now);
            && OnCourse(t, id) && Rank(t.joins[id].stage) == Rank(s.joins[id].stage) + 1
            && t.joins[id].user == s.joins[id].user && t.joins[id].invite == s.joins[id].invite
  {
    hide Commits, Refusal, Consumable;
    if s.joins[id].stage.Admitted? {
      hide AfterJoinStep;
      WelcomeCommits(s, id, now);
      JoinStepCases(s, id, now);
    }
  }

  /** Steps of others leave a request where it is. */
  lemma OtherStepsLeave(s: State, step: Step, id: Id)
    requires InvitesHold(s) && Enabled(s, step) && id in s.joins
    requires step.AdvanceJoin? ==> step.id != id
    ensures id in Next(s, step).joins && Next(s, step).joins[id] == s.joins[id]
    ensures Reads(Next(s, step), id)
  {
    StepKeepsInvites(s, step);
    if step.AdvanceJoin? && !Commits(s, step.id, step.now) {
      ReadStep(s, step.id, step.now);
    }
  }

  /** How often the request is advanced from the i-th step on. */
  function Stretches(steps: seq<Step>, i: nat, id: Id): nat
    requires i <= |steps|
    decreases |steps|
  {
    if i == |steps| then 0
    else
      var n := |steps| - 1;
      Stretches(steps[..n], i, id) + if steps[n].AdvanceJoin? && steps[n].id == id then 1 else 0
  }

  ghost predicate WelcomedFrom(steps: seq<Step>, i: nat, id: Id, user: Id, invite: Id) {
    forall k :: i <= k < |steps| && steps[k].AdvanceJoin? && steps[k].id == id ==>
      Welcomes(Run(steps[..k]), user, invite, steps[k].now)
  }

  /** In every run a request that is welcome whenever it comes to the database joins by its fifth
      stretch, whatever other requests, edits and ticks come in between. */
  lemma {:induction false} WelcomeJoins(steps: seq<Step>, i: nat, id: Id, user: Id, invite: Id)
    requires i < |steps| && steps[i] == StartJoin(id, user, invite) && Enabled(Run(steps[..i]), steps[i])
    requires WelcomedFrom(steps, i, id, user, invite)
    ensures var s := Run(steps);
            var n := Stretches(steps, i, id);
            && OnCourse(s, id) && s.joins[id].user == user && s.joins[id].invite == invite
            && Rank(s.joins[id].stage) == (if n < 5 then n else 5)
            && (n >= 5 ==> s.joins[id].stage == Ended(Joined))
    decreases |steps|
  {
    hide Next, Enabled, InvitesHold, Welcomes;
    var n := |steps| - 1;
    var s, step := Run(steps[..n]), steps[n];
    RunKeepsInvites(steps[..n]);
    if i == n {
      StartsOnCourse(s, step);
      NoStretchYet(steps, i, id);
    } else {
      assert steps[..n][..i] == steps[..i];
      assert forall k :: i <= k < n ==> steps[..n][..k] == steps[..k];
      WelcomeJoins(steps[..n], i, id, user, invite);
      if Enabled(s, step) {
        if step.AdvanceJoin? && step.id == id {
          AdvanceIsStep(s, step);
          if Rank(s.joins[id].stage) < 5 {
            WelcomeStep(s, id, step.now);
          }
        } else {
          OtherStepsLeave(s, step, id);
        }
      } else {
        assert step.AdvanceJoin? ==> step.id != id by { StaysEnabled(s, step, id); }
      }
    }
  }

  lemma StartsOnCourse(s: State, step: Step)
    requires step.StartJoin? && Enabled(s, step)
    ensures var t := Next(s, step);
            OnCourse(t, step.id) && t.joins[step.id] == Join(step.user, step.invite, Begun, None)
  {
  }

  lemma NoStretchYet(steps: seq<Step>, i: nat, id: Id)
    requires i + 1 == |steps| && !steps[i].AdvanceJoin?
    ensures Stretches(steps, i, id) == 0
  {
    assert Stretches(steps[..i], i, id) == 0;
  }

  lemma AdvanceIsStep(s: State, step: Step)
    requires step.AdvanceJoin? && Enabled(s, step)
    ensures Next(s, step) == AfterJoinStep(s, step.id, step.now)
    ensures s.joins[step.id].stage.Ended? ==> Next(s, step) == s
  {
  }

  lemma StaysEnabled(s: State, step: Step, id: Id)
    requires id in s.joins
    ensures step.AdvanceJoin? && step.id == id ==> Enabled(s, step)
  {
  }
}
