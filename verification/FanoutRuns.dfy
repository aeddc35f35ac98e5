/** The fanout as a pass that awaits a decision for one client after the other, with any steps of the
    gateway in between. The tables are fixed for the pass, so that its caches stay right throughout
    and each decision is that of the rule with no cache. */
module FanoutRuns {
  import opened GatewayFanout
  import opened GatewayProtocol
  import opened GatewayRuns
  import opened Wrappers

  /** What a pass is about: its event, and the tables it decides by. */
  datatype Broadcast = Broadcast(tables: Tables, notice: Notice)

  /** A pass under way: the clients gone through, the one whose dispatch is still due, and the
      clients dispatched to. */
  datatype Pass = Pass(s: State, visited: set<Id>, due: Option<Id>, made: seq<Id>)

  /** A step of the gateway; the pass takes up a client and decides; the pass dispatches to it. */
  datatype Move = Meanwhile(step: Step) | Visit(id: Id) | Deliver(amount: nat)

  function Begun(s: State): Pass {
    Pass(s, {}, None, [])
  }

  /** The pass takes up each client that is in the map, once, and one at a time. */
  ghost predicate CanMove(p: Pass, move: Move) {
    && WellFormed(p.s)
    && match move
       case Meanwhile(step) => Enabled(p.s, step)
       case Visit(id) => p.due.None? && id in p.s.open && id !in p.visited
       case Deliver(_) => p.due.Some? && p.due.value in p.s.sockets
  }

  ghost predicate WantsNow(b: Broadcast, s: State, id: Id) {
    id in s.sockets && Wants(b.tables, b.notice, s.sockets[id])
  }

  ghost function Moved(b: Broadcast, p: Pass, move: Move): Pass
    requires CanMove(p, move)
  {
    match move
    case Meanwhile(step) => p.(s := Next(p.s, step))
    case Visit(id) => p.(visited := p.visited + {id}, due := if WantsNow(b, p.s, id) then Some(id) else None)
    case Deliver(amount) =>
      p.(s := AfterDispatch(p.s, p.due.value, b.notice.event, amount), due := None, made := p.made + [p.due.value])
  }

  /** The pass after the moves; those that cannot happen are skipped. */
  ghost function Passing(b: Broadcast, s: State, moves: seq<Move>): Pass {
    if moves == [] then Begun(s)
    else
      var n := |moves| - 1;
      var p := Passing(b, s, moves[..n]);
      if CanMove(p, moves[n]) then Moved(b, p, moves[n]) else p
  }

  lemma PassingLast(b: Broadcast, s: State, moves: seq<Move>, move: Move)
    ensures var p := Passing(b, s, moves);
            Passing(b, s, moves + [move]) == if CanMove(p, move) then Moved(b, p, move) else p
  {
    assert (moves + [move])[..|moves|] == moves;
  }

  // ----- a pass is a run of the protocol -----

  function StepOf(b: Broadcast, p: Pass, move: Move): seq<Step> {
    match move
    case Meanwhile(step) => [step]
    case Visit(_) => []
    case Deliver(amount) => if p.due.Some? then [SendDispatch(p.due.value, b.notice.event, amount)] else []
  }

  ghost function StepsOf(b: Broadcast, s: State, moves: seq<Move>): seq<Step> {
    if moves == [] then []
    else
      var n := |moves| - 1;
      StepsOf(b, s, moves[..n]) + StepOf(b, Passing(b, s, moves[..n]), moves[n])
  }

  lemma MoveIsRun(b: Broadcast, p: Pass, move: Move, steps: seq<Step>)
    requires p.s == Run(steps)
    ensures (if CanMove(p, move) then Moved(b, p, move).s else p.s) == Run(steps + StepOf(b, p, move))
  {
    hide WellFormed, WantsNow, AfterDispatch, Run;
    RunIsWellFormed(steps);
    var more := StepOf(b, p, move);
    if |more| == 1 {
      RunPush(steps, more[0]);
    } else {
      assert steps + more == steps;
    }
  }

  /** So all that holds of runs holds of passes, however many there are and however they overlap. */
  lemma {:induction false} PassIsRun(b: Broadcast, before: seq<Step>, moves: seq<Move>)
    ensures Passing(b, Run(before), moves).s == Run(before + StepsOf(b, Run(before), moves))
  {
    hide CanMove, Moved, StepOf, Run;
    var s := Run(before);
    if moves == [] {
      assert before + [] == before;
    } else {
      var n := |moves| - 1;
      var p := Passing(b, s, moves[..n]);
      PassIsRun(b, before, moves[..n]);
      var steps := before + StepsOf(b, s, moves[..n]);
      MoveIsRun(b, p, moves[n], steps);
      assert before + StepsOf(b, s, moves) == steps + StepOf(b, p, moves[n]);
    }
  }

  // ----- every client is dispatched to once, if it wants the event when the pass comes to it -----

  function Count(ids: seq<Id>, id: Id): nat {
    if ids == [] then 0
    else
      var n := |ids| - 1;
      Count(ids[..n], id) + if ids[n] == id then 1 else 0
  }

  lemma CountPush(ids: seq<Id>, last: Id, id: Id)
    ensures Count(ids + [last], id) == Count(ids, id) + if last == id then 1 else 0
  {
    assert (ids + [last])[..|ids|] == ids;
  }

  /** The k-th move takes up the client. */
  ghost predicate TakesUp(b: Broadcast, s: State, moves: seq<Move>, k: nat, id: Id)
    requires k < |moves|
  {
    moves[k] == Visit(id) && CanMove(Passing(b, s, moves[..k]), moves[k])
  }

  /** The pass came to the client at a moment when it was identified and its user might see the event. */
  ghost predicate Came(b: Broadcast, s: State, moves: seq<Move>, id: Id) {
    exists k: nat :: k < |moves| && TakesUp(b, s, moves, k, id) && WantsNow(b, Passing(b, s, moves[..k]).s, id)
  }

  ghost predicate WasTakenUp(b: Broadcast, s: State, moves: seq<Move>, id: Id) {
    exists k: nat :: k < |moves| && TakesUp(b, s, moves, k, id)
  }

  /** One dispatch for each client the pass came to, made or still due, and none for any other. */
  ghost predicate Accounted(b: Broadcast, s: State, moves: seq<Move>, id: Id) {
    var p := Passing(b, s, moves);
    && Count(p.made, id) + (if p.due == Some(id) then 1 else 0) == (if Came(b, s, moves, id) then 1 else 0)
    && (id in p.visited <==> WasTakenUp(b, s, moves, id))
  }

  lemma TakesUpEarlier(b: Broadcast, s: State, moves: seq<Move>, n: nat, k: nat, id: Id)
    requires k < n <= |moves|
    ensures moves[..n][..k] == moves[..k]
    ensures TakesUp(b, s, moves[..n], k, id) <==> TakesUp(b, s, moves, k, id)
  {
    assert moves[..n][..k] == moves[..k];
  }

  /** What the last move adds. */
  lemma CameLast(b: Broadcast, s: State, moves: seq<Move>, id: Id)
    requires moves != []
    ensures var n := |moves| - 1;
            var now := TakesUp(b, s, moves, n, id);
            && (WasTakenUp(b, s, moves, id) <==> WasTakenUp(b, s, moves[..n], id) || now)
            && (Came(b, s, moves, id) <==>
                Came(b, s, moves[..n], id) || (now && WantsNow(b, Passing(b, s, moves[..n]).s, id)))
  {
    hide CanMove, WantsNow, Passing, TakesUp;
    var n := |moves| - 1;
    forall k: nat | k < n
      ensures moves[..n][..k] == moves[..k] && (TakesUp(b, s, moves[..n], k, id) <==> TakesUp(b, s, moves, k, id))
    {
      TakesUpEarlier(b, s, moves, n, k, id);
    }
  }

  lemma CameWasTakenUp(b: Broadcast, s: State, moves: seq<Move>, id: Id)
    ensures Came(b, s, moves, id) ==> WasTakenUp(b, s, moves, id)
  {
  }

  /** Whatever steps come in between, other passes included. */
  lemma {:induction false} OnceEach(b: Broadcast, s: State, moves: seq<Move>, id: Id)
    ensures Accounted(b, s, moves, id)
  {
    hide Came, WasTakenUp, WantsNow, WellFormed, Enabled, AfterDispatch;
    if moves == [] {
      CameNot(b, s, id);
    } else {
      var n := |moves| - 1;
      OnceEach(b, s, moves[..n], id);
      CameLast(b, s, moves, id);
      CameWasTakenUp(b, s, moves[..n], id);
      var p := Passing(b, s, moves[..n]);
      if CanMove(p, moves[n]) && moves[n].Deliver? {
        CountPush(p.made, p.due.value, id);
      }
    }
  }

  lemma CameNot(b: Broadcast, s: State, id: Id)
    ensures !Came(b, s, [], id) && !WasTakenUp(b, s, [], id)
  {
  }

  // ----- whom a pass reaches that has come to its end -----

  /** The pass has gone through all clients in the map, and no dispatch is due. */
  ghost predicate Finished(p: Pass) {
    p.due.None? && forall id :: id in p.s.open ==> id in p.visited
  }

  /** The step does not close the connection or give it a user. */
  predicate Spares(step: Step, id: Id) {
    (step.Identify? || step.Resume? || step.Close?) ==> step.id != id
  }

  ghost predicate AllSpare(moves: seq<Move>, id: Id) {
    forall k :: 0 <= k < |moves| && moves[k].Meanwhile? ==> Spares(moves[k].step, id)
  }

  /** The connection is open with the user it had. */
  predicate SameUser(s: State, t: State, id: Id) {
    && id in s.open && id in s.sockets && id in t.open && id in t.sockets
    && t.sockets[id].userId == s.sockets[id].userId && t.sockets[id].identified == s.sockets[id].identified
  }

  lemma SparedStep(s: State, step: Step, id: Id)
    requires WellFormed(s) && Enabled(s, step) && Spares(step, id) && id in s.open && id in s.sockets
    ensures SameUser(s, Next(s, step), id)
  {
    hide Resumed, Registered, Unregistered, Appended, FloorAfter;
    if step.Close? {
      UnregisteredKeepsHolders(WithoutClient(s, step.id, step.now), step.id);
    }
  }

  lemma {:induction false} SparedAllAlong(b: Broadcast, s: State, moves: seq<Move>, id: Id)
    requires AllSpare(moves, id) && id in s.open && id in s.sockets
    ensures SameUser(s, Passing(b, s, moves).s, id)
  {
    hide WantsNow, WellFormed;
    if moves != [] {
      var n := |moves| - 1;
      SparedAllAlong(b, s, moves[..n], id);
      var p := Passing(b, s, moves[..n]);
      if CanMove(p, moves[n]) {
        match moves[n]
        case Meanwhile(step) => SparedStep(p.s, step, id);
        case Visit(_) =>
        case Deliver(amount) => SparedStep(p.s, SendDispatch(p.due.value, b.notice.event, amount), id);
      }
    }
  }

  /** A client that stays, as whom it is identified, gets the event once from a pass that comes to its
      end if its user may see it, and not at all otherwise. */
  lemma FinishedReaches(b: Broadcast, s: State, moves: seq<Move>, id: Id)
    requires Finished(Passing(b, s, moves))
    requires AllSpare(moves, id) && id in s.open && id in s.sockets
    ensures Count(Passing(b, s, moves).made, id) == if Wants(b.tables, b.notice, s.sockets[id]) then 1 else 0
  {
    hide Passing, Visible, CanMove;
    SparedAllAlong(b, s, moves, id);
    OnceEach(b, s, moves, id);
    var k: nat :| k < |moves| && TakesUp(b, s, moves, k, id);
    SparedAllAlong(b, s, moves[..k], id);
    assert WantsNow(b, Passing(b, s, moves[..k]).s, id) <==> Wants(b.tables, b.notice, s.sockets[id]);
    forall j: nat | j < |moves| && TakesUp(b, s, moves, j, id)
      ensures WantsNow(b, Passing(b, s, moves[..j]).s, id) <==> Wants(b.tables, b.notice, s.sockets[id])
    {
      SparedAllAlong(b, s, moves[..j], id);
    }
  }

  // ----- the arrays, and the pass with nothing in between -----

  /** The move is a late dispatch into the array: of another step, or of the pass to a client that
      closed while it was due. */
  ghost predicate TooLate(p: Pass, move: Move, a: Id) {
    match move
    case Meanwhile(step) => LateInto(p.s, step, a)
    case Visit(_) => false
    case Deliver(_) =>
      && p.due.Some? && p.due.value in p.s.sockets
      && p.due.value !in p.s.open && p.s.sockets[p.due.value].buffer == a
  }

  lemma DeliverKeepsBlock(s: State, id: Id, event: Event, amount: nat, a: Id)
    requires WellFormed(s) && id in s.sockets && BlockAt(s, a)
    requires s.sockets[id].buffer == a ==> id in s.open
    ensures BlockAt(AfterDispatch(s, id, event, amount), a)
  {
    hide BlockAt, AfterDispatch, WellFormed;
    DispatchBlockIff(s, id, event, amount, a);
    if s.sockets[id].buffer == a {
      OpenIsUnshared(s, id);
    }
  }

  /** A pass leaves an array in order unless a client that holds it closes while its dispatch is due. */
  lemma {:induction false} PassKeepsBlock(b: Broadcast, s: State, moves: seq<Move>, a: Id)
    requires WellFormed(s) && BlockAt(s, a)
    requires forall k :: 0 <= k < |moves| ==> !TooLate(Passing(b, s, moves[..k]), moves[k], a)
    ensures BlockAt(Passing(b, s, moves).s, a)
  {
    hide BlockAt, WantsNow, LateInto;
    if moves != [] {
      var n := |moves| - 1;
      assert forall k :: 0 <= k < n ==> moves[..n][..k] == moves[..k];
      PassKeepsBlock(b, s, moves[..n], a);
      var p := Passing(b, s, moves[..n]);
      if CanMove(p, moves[n]) {
        match moves[n]
        case Meanwhile(step) => StepBlockIff(p.s, step, a);
        case Visit(_) =>
        case Deliver(amount) => DeliverKeepsBlock(p.s, p.due.value, b.notice.event, amount, a);
      }
    }
  }

  function Rounds(order: seq<Id>, amounts: seq<nat>): seq<Move> {
    if order == [] then []
    else
      var n := |order| - 1;
      Rounds(order[..n], amounts) + [Visit(order[n])] + [Deliver(AmountAt(amounts, n))]
  }

  /** With no step in between, the pass is the loop that the method makes. */
  lemma {:induction false} FannedIsPass(s: State, t: Tables, e: Notice, order: seq<Id>, amounts: seq<nat>)
    requires WellFormed(s) && AllKnown(s, order) && Distinct(order)
    requires forall id :: id in order ==> id in s.open
    ensures var p := Passing(Broadcast(t, e), s, Rounds(order, amounts));
            && p.s == Fanned(s, t, e, order, amounts) && p.s.open == s.open
            && p.visited == Visited(order) && p.due.None?
  {
    hide Fanned, Passing, WellFormed, Wants, Enabled;
    FannedLast(s, t, e, order, amounts);
    var b := Broadcast(t, e);
    if order == [] {
      assert Passing(b, s, []) == Begun(s) by { PassingNothing(b, s); }
    } else {
      var n := |order| - 1;
      assert order == order[..n] + [order[n]];
      FannedIsPass(s, t, e, order[..n], amounts);
      var moves := Rounds(order[..n], amounts);
      PassingLast(b, s, moves, Visit(order[n]));
      PassingLast(b, s, moves + [Visit(order[n])], Deliver(AmountAt(amounts, n)));
    }
  }

  lemma PassingNothing(b: Broadcast, s: State)
    ensures Passing(b, s, []) == Begun(s)
  {
  }
}
