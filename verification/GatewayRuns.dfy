/** What the session protocol keeps over whole runs, the numbering, and what RESUME replays. */
module GatewayRuns {
  import opened GatewayProtocol

  /** A run from the empty gateway; steps that cannot happen are skipped. */
  ghost function Run(steps: seq<Step>): State {
    if steps == [] then EMPTY
    else
      var s := Run(steps[..|steps| - 1]);
      var step := steps[|steps| - 1];
      if WellFormed(s) && Enabled(s, step) then Next(s, step) else s
  }

  lemma RunPush(steps: seq<Step>, step: Step)
    ensures var s := Run(steps);
            Run(steps + [step]) == if WellFormed(s) && Enabled(s, step) then Next(s, step) else s
  {
    assert (steps + [step])[..|steps|] == steps;
  }

  /** So no step is skipped but those that are not enabled. */
  lemma {:induction false} RunIsWellFormed(steps: seq<Step>)
    ensures WellFormed(Run(steps))
  {
    if steps != [] {
      var n := |steps| - 1;
      RunIsWellFormed(steps[..n]);
      if Enabled(Run(steps[..n]), steps[n]) {
        NextWellFormed(Run(steps[..n]), steps[n]);
      }
    }
  }

  // ----- the replay -----

  function CutAt(items: seq<Numbered>, first: nat, lastSeq: nat): nat {
    if lastSeq < first then 0 else Min(lastSeq - first + 1, |items|)
  }

  /** On a contiguous block the filter is a suffix. */
  lemma {:induction false} AfterIsSuffix(items: seq<Numbered>, first: nat, lastSeq: nat)
    requires forall i :: 0 <= i < |items| ==> items[i].s == first + i
    ensures After(items, lastSeq) == items[CutAt(items, first, lastSeq)..]
  {
    if items != [] {
      var n := |items| - 1;
      var k := CutAt(items, first, lastSeq);
      AfterIsSuffix(items[..n], first, lastSeq);
      assert items[n].s == first + n;
      if first + n > lastSeq {
        assert CutAt(items[..n], first, lastSeq) == k <= n;
        assert items[k..] == items[..n][k..] + [items[n]];
      } else {
        assert CutAt(items[..n], first, lastSeq) == n && k == n + 1;
      }
    }
  }

  /** The events of the session behind `lastSeq`. */
  function Missed(s: State, sessionId: Id, lastSeq: nat): seq<Numbered>
    requires sessionId in s.orphans && s.orphans[sessionId].buffer in s.logs
  {
    var all := Pushed(s.logs[s.orphans[sessionId].buffer]);
    all[Min(lastSeq, |all|)..]
  }

  /** The orphan is there, and its array has its block. */
  ghost predicate OrphanHolds(s: State, sessionId: Id) {
    WellFormed(s) && sessionId in s.orphans && BlockAt(s, s.orphans[sessionId].buffer)
  }

  lemma OrphanBlock(s: State, sessionId: Id)
    requires OrphanHolds(s, sessionId)
    ensures var o := s.orphans[sessionId];
            o.buffer in s.logs && Block(s.logs[o.buffer], o.bufferFloor, o.lastNumber)
  {
    assert Holds(s, OrphanOf(sessionId));
  }

  /** There is a gap exactly when the event behind `lastSeq` was evicted. */
  lemma GapIffEvicted(s: State, sessionId: Id, lastSeq: nat)
    requires OrphanHolds(s, sessionId)
    ensures var o := s.orphans[sessionId];
            o.bufferFloor > lastSeq + 1 <==> exists e :: e in s.logs[o.buffer].evicted && e.s == lastSeq + 1
  {
    OrphanBlock(s, sessionId);
    var o := s.orphans[sessionId];
    var log := s.logs[o.buffer];
    assert forall i :: 0 <= i < |log.evicted| ==> log.evicted[i] == Pushed(log)[i];
    if o.bufferFloor > lastSeq + 1 {
      assert log.evicted[lastSeq].s == lastSeq + 1;
    }
  }

  /** What the filter leaves of an array with no gap behind `lastSeq`. */
  lemma AfterOnBlock(log: Log, floor: nat, lastNumber: nat, lastSeq: nat)
    requires Block(log, floor, lastNumber) && floor <= lastSeq + 1
    ensures After(log.items, lastSeq) == Pushed(log)[Min(lastSeq, lastNumber)..]
  {
    hide After;
    BlockIsContiguous(log, floor, lastNumber);
    AfterIsSuffix(log.items, floor, lastSeq);
  }

  /** What the replay loop goes through is what the client missed, numbered without a gap. */
  lemma ReplayIsMissed(s: State, sessionId: Id, lastSeq: nat)
    requires OrphanHolds(s, sessionId)
    requires s.orphans[sessionId].bufferFloor <= lastSeq + 1
    ensures var o := s.orphans[sessionId];
            var missed := Missed(s, sessionId, lastSeq);
            && After(s.logs[o.buffer].items, lastSeq) == missed
            && lastSeq + |missed| == (if lastSeq < o.lastNumber then o.lastNumber else lastSeq)
            && forall i :: 0 <= i < |missed| ==> missed[i].s == lastSeq + 1 + i
  {
    hide After, Pushed;
    OrphanBlock(s, sessionId);
    var o := s.orphans[sessionId];
    AfterOnBlock(s.logs[o.buffer], o.bufferFloor, o.lastNumber, lastSeq);
  }

  /** RESUME with a live orphan: BUFFER_GAP exactly when the next event was evicted, and otherwise
      the missed events, each once and in order, up to the first send that finds the socket slow. */
  lemma ResumeReplays(s: State, id: Id, user: User, sessionId: Id, lastSeq: nat, now: int, amounts: seq<nat>)
    requires OrphanHolds(s, sessionId) && HasLiveOrphan(s, user, sessionId, now)
    requires id in s.sockets && !s.sockets[id].closing
    ensures var o := s.orphans[sessionId];
            var log := s.logs[o.buffer];
            var c := s.sockets[id];
            var d := AfterResume(s, id, user, sessionId, lastSeq, now, amounts).sockets[id];
            var missed := Missed(s, sessionId, lastSeq);
            var k := Passed(amounts, |missed|);
            if exists e :: e in log.evicted && e.s == lastSeq + 1 then
              && SocketView(d) == SocketView(c)
              && d.sent == c.sent + if AmountAt(amounts, 0) <= MAX_BUFFERED_BYTES then [BUFFER_GAP] else []
            else
              && SocketView(d) == View(o.lastNumber, o.buffer, o.bufferFloor)
              && d.sent == c.sent + Frames(missed[..k])
              && d.closing == (k < |missed|)
  {
    GapIffEvicted(s, sessionId, lastSeq);
    var o := s.orphans[sessionId];
    var log := s.logs[o.buffer];
    if o.bufferFloor <= lastSeq + 1 {
      ReplayIsMissed(s, sessionId, lastSeq);
      var c := Adopted(AfterIdentify(s, id, user).sockets[id], o, lastSeq);
      ReplayIsPrefix(c, After(log.items, lastSeq), amounts);
    }
  }

  // ----- numbering over runs -----

  /** The step is a dispatch into the array while another holds it, too. */
  ghost predicate LateInto(s: State, step: Step, a: Id) {
    step.SendDispatch? && step.id in s.sockets && s.sockets[step.id].buffer == a && !Unshared(s, step.id)
  }

  /** A step keeps the block of an array exactly when it is no late dispatch into this array. */
  lemma StepBlockIff(s: State, step: Step, a: Id)
    requires WellFormed(s) && Enabled(s, step) && BlockAt(s, a)
    ensures BlockAt(Next(s, step), a) <==> !LateInto(s, step, a)
  {
    hide BlockAt, Unshared, WellFormed;
    match step
    case Connect(id, amount) => ConnectKeepsBlock(s, id, amount, a);
    case Identify(id, user) => IdentifyKeepsBlock(s, id, user, a);
    case Resume(id, user, sessionId, lastSeq, now, amounts) =>
      ResumeKeepsBlock(s, id, user, sessionId, lastSeq, now, amounts, a);
    case SendDispatch(id, event, amount) => DispatchBlockIff(s, id, event, amount, a);
    case Reply(id, frame, amount) => ReplyKeepsBlock(s, id, frame, amount, a);
    case Close(id, now) => CloseKeepsBlock(s, id, now, a);
    case Sweep(now) => SweepKeepsBlock(s, now, a);
  }

  ghost predicate NeverLateInto(steps: seq<Step>, a: Id) {
    forall i :: 0 <= i < |steps| ==> !LateInto(Run(steps[..i]), steps[i], a)
  }

  /** Whatever happens to the arrays of other sessions. */
  lemma {:induction false} RunKeepsBlock(steps: seq<Step>, a: Id)
    requires NeverLateInto(steps, a)
    ensures BlockAt(Run(steps), a)
  {
    if steps != [] {
      var n := |steps| - 1;
      assert forall i :: 0 <= i < n ==> steps[..n][..i] == steps[..i];
      RunKeepsBlock(steps[..n], a);
      var s := Run(steps[..n]);
      RunIsWellFormed(steps[..n]);
      if Enabled(s, steps[n]) {
        StepBlockIff(s, steps[n], a);
      }
    }
  }

  /** If the step is a dispatch into the array, its client is still open. */
  predicate OpenInto(s: State, step: Step, a: Id) {
    step.SendDispatch? && step.id in s.sockets && s.sockets[step.id].buffer == a ==> step.id in s.open
  }

  lemma OpenIsInTime(s: State, step: Step, a: Id)
    requires OpenInto(s, step, a) && BlockAt(s, a)
    ensures !LateInto(s, step, a)
  {
    if step.SendDispatch? && step.id in s.sockets && s.sockets[step.id].buffer == a {
      OpenIsUnshared(s, step.id);
    }
  }

  ghost predicate AlwaysOpenInto(steps: seq<Step>, a: Id) {
    forall i :: 0 <= i < |steps| ==> OpenInto(Run(steps[..i]), steps[i], a)
  }

  /** Only a dispatch that outlived its socket behind an `await` is late. */
  lemma {:induction false} OpenDispatchesAreInTime(steps: seq<Step>, a: Id)
    requires AlwaysOpenInto(steps, a)
    ensures NeverLateInto(steps, a)
  {
    hide Run, LateInto, OpenInto, BlockAt;
    if steps != [] {
      var n := |steps| - 1;
      assert forall i :: 0 <= i < n ==> steps[..n][..i] == steps[..i];
      OpenDispatchesAreInTime(steps[..n], a);
      RunKeepsBlock(steps[..n], a);
      OpenIsInTime(Run(steps[..n]), steps[n], a);
      assert forall i :: 0 <= i < n ==> steps[..n][i] == steps[i];
    }
  }
}
