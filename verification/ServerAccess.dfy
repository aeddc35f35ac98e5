/** Joining servers by invite under raid lockdown, as a state machine over the database. Each step
    is one stretch of a request between two database calls, or one transaction. */
module ServerAccess {
  import opened Wrappers

  type Id = nat
  type Time = int

  const RAID_LOCKDOWN_MS: int := 15 * 60 * 1000
  const HOUR_MS: int := 60 * 60 * 1000

  datatype Scope = InstanceScope | ServerScope

  datatype Invite = Invite(
    scope: Scope,
    server: Option<Id>,
    maxUses: Option<nat>,
    uses: nat,
    expiresAt: Option<Time>,
    revokedAt: Option<Time>)

  /** A user on a server. */
  datatype Seat = Seat(server: Id, user: Id)

  datatype Member = Member(joinedAt: Time, timeoutUntil: Option<Time>)

  datatype Action = PauseInvites | RequireApproval | Quarantine

  /** A row of the raid protection table. */
  datatype Raid = Raid(
    enabled: bool,
    joinWindowSec: nat,
    joinThreshold: nat,
    action: Action,
    lockdownActive: bool,
    lockdownEndsAt: Option<Time>)

  datatype Outcome =
    | InvalidInvite
    | NothingToJoin
    | NotServerScoped
    | AlreadyMember
    | FullyUsed
    | MemberBanned
    | LockedDown
    | DuplicateMember
    | Joined

  /** How far a join request is; `invite` is the row as the request read it. */
  datatype Stage =
    | Begun
    | HasInvite(invite: Invite)
    | NotMember(invite: Invite)
    | NotBanned(invite: Invite)
    | Admitted(invite: Invite, timeoutUntil: Option<Time>)
    | Ended(outcome: Outcome)

  /** A join request; `lockdown` is the end of the active lockdown it read, if it read one. */
  datatype Join = Join(user: Id, invite: Id, stage: Stage, lockdown: Option<Time>)

  datatype Watched = Watched(server: Id, row: Raid)

  /** A watch tick under way: the rows it read at its start and has not come to yet. */
  datatype Tick = Tick(now: Time, pending: seq<Watched>)

  /** A join that was committed. */
  datatype Commit = Commit(join: Id, invite: Id, seat: Seat, at: Time, timeoutUntil: Option<Time>)

  datatype RaidEvent = Tripped(server: Id, at: Time) | Lifted(server: Id)

  datatype State = State(
    invites: map<Id, Invite>,
    members: map<Seat, Member>,
    banned: set<Seat>,
    raids: map<Id, Raid>,
    joins: map<Id, Join>,
    ticks: map<Id, Tick>,
    commits: seq<Commit>,
    raidLog: seq<RaidEvent>)

  const EMPTY: State := State(map[], map[], {}, map[], map[], map[], [], [])

  datatype Step =
    | CreateInvite(id: Id, row: Invite)
    | Revoke(id: Id, now: Time)
    | Ban(seat: Seat)
    | Unban(seat: Seat)
    | Leave(seat: Seat)
    | Enroll(seat: Seat, now: Time)
    | StartJoin(id: Id, user: Id, invite: Id)
    | AdvanceJoin(id: Id, now: Time)
    | PutConfig(id: Id, enabled: bool, joinWindowSec: nat, joinThreshold: nat, action: Action)
    | Lift(id: Id)
    | StartTick(id: Id, now: Time, order: seq<Id>)
    | AdvanceTick(id: Id)
    | AbortTick(id: Id)

  // ----- a join request -----

  function AfterInviteRead(row: Option<Invite>, now: Time): Stage {
    match row
    case None => Ended(InvalidInvite)
    case Some(invite) =>
      if invite.revokedAt.Some? || (invite.expiresAt.Some? && invite.expiresAt.value < now) then Ended(InvalidInvite)
      else if invite.scope == InstanceScope then Ended(NothingToJoin)
      else if invite.server == None then Ended(NotServerScoped)
      else HasInvite(invite)
  }

  /** The check against the invite as it was read; the transaction checks again. */
  function AfterMemberRead(invite: Invite, isMember: bool): Stage {
    if isMember then Ended(AlreadyMember)
    else if invite.maxUses.Some? && invite.uses >= invite.maxUses.value then Ended(FullyUsed)
    else NotMember(invite)
  }

  function AfterBanRead(invite: Invite, isBanned: bool): Stage {
    if isBanned then Ended(MemberBanned) else NotBanned(invite)
  }

  function AfterRaidRead(invite: Invite, row: Option<Raid>, now: Time): Stage {
    if row.None? || !row.value.lockdownActive then Admitted(invite, None)
    else if row.value.action == PauseInvites then Ended(LockedDown)
    else if row.value.lockdownEndsAt.Some? then Admitted(invite, row.value.lockdownEndsAt)
    else Admitted(invite, Some(now + HOUR_MS))
  }

  function Row<V>(table: map<Id, V>, id: Id): Option<V> {
    if id in table then Some(table[id]) else None
  }

  /** The conditional increment finds the row. `invite` is the row as it was read before. */
  predicate Consumable(row: Invite, invite: Invite, now: Time) {
    && row.revokedAt == None
    && row.scope == ServerScope
    && (row.expiresAt.Some? ==> row.expiresAt.value > now)
    && (invite.maxUses.Some? ==> row.uses < invite.maxUses.value)
  }

  function SeatOf(j: Join, invite: Invite): Seat
    requires invite.server.Some?
  {
    Seat(invite.server.value, j.user)
  }

  predicate Commits(s: State, id: Id, now: Time) {
    && id in s.joins && s.joins[id].stage.Admitted?
    && var j := s.joins[id];
       var invite := j.stage.invite;
       && invite.server.Some?
       && SeatOf(j, invite) !in s.banned
       && j.invite in s.invites && Consumable(s.invites[j.invite], invite, now)
       && SeatOf(j, invite) !in s.members
  }

  /** Why the transaction rolls back. */
  function Refusal(s: State, id: Id, now: Time): Outcome
    requires id in s.joins && s.joins[id].stage.Admitted? && s.joins[id].stage.invite.server.Some?
  {
    var j := s.joins[id];
    var invite := j.stage.invite;
    if SeatOf(j, invite) in s.banned then MemberBanned
    else if j.invite !in s.invites || !Consumable(s.invites[j.invite], invite, now) then FullyUsed
    else DuplicateMember
  }

  function Moved(s: State, id: Id, stage: Stage): State
    requires id in s.joins
  {
    s.(joins := s.joins[id := s.joins[id].(stage := stage)])
  }

  function Committed(s: State, id: Id, now: Time): State
    requires Commits(s, id, now)
  {
    var j := s.joins[id];
    var seat := SeatOf(j, j.stage.invite);
    var row := s.invites[j.invite];
    s.(invites := s.invites[j.invite := row.(uses := row.uses + 1)],
       members := s.members[seat := Member(now, j.stage.timeoutUntil)],
       joins := s.joins[id := j.(stage := Ended(Joined))],
       commits := s.commits + [Commit(id, j.invite, seat, now, j.stage.timeoutUntil)])
  }

  function EndOfActive(row: Option<Raid>): Option<Time> {
    if row.Some? && row.value.lockdownActive then row.value.lockdownEndsAt else None
  }

  function AfterJoinStep(s: State, id: Id, now: Time): State
    requires id in s.joins
  {
    var j := s.joins[id];
    match j.stage
    case Begun => Moved(s, id, AfterInviteRead(Row(s.invites, j.invite), now))
    case HasInvite(invite) =>
      if invite.server.None? then s else Moved(s, id, AfterMemberRead(invite, SeatOf(j, invite) in s.members))
    case NotMember(invite) =>
      if invite.server.None? then s else Moved(s, id, AfterBanRead(invite, SeatOf(j, invite) in s.banned))
    case NotBanned(invite) =>
      if invite.server.None? then s
      else
        var row := Row(s.raids, invite.server.value);
        s.(joins := s.joins[id := j.(stage := AfterRaidRead(invite, row, now), lockdown := EndOfActive(row))])
    case Admitted(invite, _) =>
      if invite.server.None? then s
      else if Commits(s, id, now) then Committed(s, id, now)
      else Moved(s, id, Ended(Refusal(s, id, now)))
    case Ended(_) => s
  }

  // ----- raid protection -----

  function AfterPut(s: State, id: Id, enabled: bool, joinWindowSec: nat, joinThreshold: nat, action: Action): State {
    var row := if id in s.raids then s.raids[id] else Raid(false, 60, 10, RequireApproval, false, None);
    s.(raids := s.raids[id := row.(enabled := enabled, joinWindowSec := joinWindowSec, joinThreshold := joinThreshold,
                                   action := action)])
  }

  function Unlocked(row: Raid): Raid {
    row.(lockdownActive := false, lockdownEndsAt := None)
  }

  function Locked(row: Raid, end: Time): Raid {
    row.(lockdownActive := true, lockdownEndsAt := Some(end))
  }

  function AfterLift(s: State, id: Id): State {
    if id !in s.raids then s
    else s.(raids := s.raids[id := Unlocked(s.raids[id])], raidLog := s.raidLog + [Lifted(id)])
  }

  function AfterTrip(s: State, id: Id, now: Time): State {
    if id !in s.raids then s
    else s.(raids := s.raids[id := Locked(s.raids[id], now + RAID_LOCKDOWN_MS)], raidLog := s.raidLog + [Tripped(id, now)])
  }

  function RecentJoins(members: map<Seat, Member>, server: Id, windowStart: Time): nat {
    |set seat | seat in members && seat.server == server && members[seat].joinedAt >= windowStart|
  }

  /** What a tick does with one row it read at `now`; the table may have changed since. */
  function AfterWatch(s: State, w: Watched, now: Time): State {
    if w.row.lockdownActive then
      if w.row.lockdownEndsAt.Some? && w.row.lockdownEndsAt.value <= now then AfterLift(s, w.server) else s
    else if RecentJoins(s.members, w.server, now - w.row.joinWindowSec * 1000) >= w.row.joinThreshold then
      AfterTrip(s, w.server, now)
    else s
  }

  /** `order` lists the enabled rows, each once. */
  ghost predicate ListsEnabled(raids: map<Id, Raid>, order: seq<Id>) {
    && (forall k :: 0 <= k < |order| ==> order[k] in raids && raids[order[k]].enabled)
    && (forall id :: id in raids && raids[id].enabled ==> id in order)
    && (forall j, k :: 0 <= j < k < |order| ==> order[j] != order[k])
  }

  function Snapshot(raids: map<Id, Raid>, order: seq<Id>): seq<Watched>
    requires forall k :: 0 <= k < |order| ==> order[k] in raids
  {
    seq(|order|, k requires 0 <= k < |order| => Watched(order[k], raids[order[k]]))
  }

  function AfterTickStep(s: State, id: Id): State
    requires id in s.ticks
  {
    var t := s.ticks[id];
    if t.pending == [] then s.(ticks := s.ticks - {id})
    else AfterWatch(s, t.pending[0], t.now).(ticks := s.ticks[id := t.(pending := t.pending[1..])])
  }

  // ----- all steps -----

  ghost predicate Enabled(s: State, step: Step) {
    match step
    case CreateInvite(id, row) => id !in s.invites && row.uses == 0 && row.revokedAt == None
    case StartJoin(id, _, _) => id !in s.joins
    case AdvanceJoin(id, _) => id in s.joins
    case Revoke(id, _) => id in s.invites
    case StartTick(id, _, order) => id !in s.ticks && ListsEnabled(s.raids, order)
    case AdvanceTick(id) => id in s.ticks
    case AbortTick(id) => id in s.ticks
    case Enroll(seat, _) => seat !in s.members
    case _ => true
  }

  ghost function Next(s: State, step: Step): State
    requires Enabled(s, step)
  {
    match step
    case CreateInvite(id, row) => s.(invites := s.invites[id := row])
    case Revoke(id, now) => s.(invites := s.invites[id := s.invites[id].(revokedAt := Some(now))])
    case Ban(seat) => s.(banned := s.banned + {seat})
    case Unban(seat) => s.(banned := s.banned - {seat})
    case Leave(seat) => s.(members := s.members - {seat})
    case Enroll(seat, now) => s.(members := s.members[seat := Member(now, None)])
    case StartJoin(id, user, invite) => s.(joins := s.joins[id := Join(user, invite, Begun, None)])
    case AdvanceJoin(id, now) => AfterJoinStep(s, id, now)
    case PutConfig(id, enabled, joinWindowSec, joinThreshold, action) =>
      AfterPut(s, id, enabled, joinWindowSec, joinThreshold, action)
    case Lift(id) => AfterLift(s, id)
    case StartTick(id, now, order) => s.(ticks := s.ticks[id := Tick(now, Snapshot(s.raids, order))])
    case AdvanceTick(id) => AfterTickStep(s, id)
    case AbortTick(id) => s.(ticks := s.ticks - {id})
  }

  /** A run from the empty database; steps that cannot happen are skipped. */
  ghost function Run(steps: seq<Step>): State {
    if steps == [] then EMPTY
    else
      var s := Run(steps[..|steps| - 1]);
      var step := steps[|steps| - 1];
      if Enabled(s, step) then Next(s, step) else s
  }
}
