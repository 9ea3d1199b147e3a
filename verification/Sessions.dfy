/**
 The session manager around the gate: starts, spawned workers, relay sessions and deletes as separate
 tasks whose steps interleave freely. Each mutex-held section and each atomic operation is one step.
 */
module Sessions {
  import opened Wrappers
  import opened SessionGates

  datatype Reason =
    | UserStop | PanelClosed | ClientExpired | ConnectionEnded | StartFailed
    | RemoteClosed | SignalingFailed | LifetimeExpired | StartupFailed

  predicate IsClient(r: Reason) {
    r.UserStop? || r.PanelClosed? || r.ClientExpired? || r.ConnectionEnded? || r.StartFailed?
  }

  /** How far a session has come. A relay session skips listing, runner and handshake. */
  datatype Stage =
    | Reserved                  // holds the gate permit
    | Listed                    // in the active map, can be found by a delete
    | Counted                   // in the active gauge
    | Running                   // worker spawned
    | RunnerEnded
    | Decided                   // worker has read the requested reason
    | Removed                   // no longer in the active map
    | Released                  // permit given back
    | Ended                     // counted as ended
    | Done                      // acknowledged to deletes

  function Rank(s: Stage): nat {
    match s
    case Reserved => 0 case Listed => 1 case Counted => 2 case Running => 3 case RunnerEnded => 4
    case Decided => 5 case Removed => 6 case Released => 7 case Ended => 8 case Done => 9
  }

  datatype Session = Session(
    device: string,
    relay: bool,
    stage: Stage,
    requests: seq<Reason>,          // reasons stored by deletes, oldest first
    decidedAfter: nat,              // how many of them the worker saw
    runnerReason: Option<Reason>,
    reason: Option<Reason>,         // the reason the end is counted under
    reservedAt: int,
    releasedAt: Option<int>)

  datatype Deletion = Looking | Found | Waiting | ReturnedOk | ReturnedNothing | TimedOut

  datatype Delete = Delete(id: nat, request: nat, phase: Deletion)

  datatype State = State(
    now: int,
    gate: Gate,
    listed: set<nat>,               // keys of the active map
    gauge: int,
    ended: map<Reason, nat>,
    sessions: map<nat, Session>,
    deletes: map<nat, Delete>)

  datatype Step =
    | Elapse(seconds: nat)
    | Admit(id: nat, device: string, relay: bool)
    | List(id: nat)
    | Count(id: nat)
    | Spawn(id: nat)
    | EndRunner(id: nat, reason: Reason)
    | Decide(id: nat)
    | Remove(id: nat)
    | GiveBack(id: nat, reason: Reason)   // the reason matters for relay sessions only
    | CountEnd(id: nat)
    | Acknowledge(id: nat)
    | Look(d: nat, id: nat, reason: Reason)
    | Check(d: nat)
    | Wake(d: nat)
    | TimeOut(d: nat)

  ghost predicate Init(s: State) {
    && s.gate == OPEN && s.listed == {} && s.gauge == 0 && s.sessions == map[] && s.deletes == map[]
    && forall r: Reason :: r in s.ended && s.ended[r] == 0
  }

  /** What the worker decides after it saw the first `seen` requests: the last of them if it is a client's
      reason, else the runner's. */
  function Chosen(requests: seq<Reason>, seen: nat, runner: Option<Reason>): Option<Reason>
    requires seen <= |requests|
  {
    if seen > 0 && IsClient(requests[seen - 1]) then Some(requests[seen - 1]) else runner
  }

  predicate At(s: State, id: nat, stage: Stage, relay: bool) {
    id in s.sessions && s.sessions[id].stage == stage && s.sessions[id].relay == relay
  }

  ghost predicate Enabled(s: State, step: Step) {
    match step
    case Elapse(_) => true
    case Admit(id, _, _) => id !in s.sessions
    case List(id) => At(s, id, Reserved, false)
    case Count(id) => At(s, id, Listed, false) || At(s, id, Reserved, true)
    case Spawn(id) => At(s, id, Counted, false)
    case EndRunner(id, _) => At(s, id, Running, false)
    case Decide(id) => At(s, id, RunnerEnded, false)
    case Remove(id) => At(s, id, Decided, false)
    case GiveBack(id, _) => At(s, id, Removed, false) || At(s, id, Counted, true)
    case CountEnd(id) => id in s.sessions && s.sessions[id].stage.Released? && s.sessions[id].reason.Some?
    case Acknowledge(id) => At(s, id, Ended, false)
    case Look(d, _, _) => d !in s.deletes
    case Check(d) => d in s.deletes && s.deletes[d].phase.Found?
    case Wake(d) =>
      d in s.deletes && s.deletes[d].phase.Waiting? && s.deletes[d].id in s.sessions
      && s.sessions[s.deletes[d].id].stage.Done?
    case TimeOut(d) => d in s.deletes && s.deletes[d].phase.Waiting?
  }

  function Put(s: State, id: nat, x: Session): State {
    s.(sessions := s.sessions[id := x])
  }

  ghost function Next(s: State, step: Step): State
    requires Enabled(s, step)
  {
    match step
    case Elapse(seconds) => s.(now := s.now + seconds)
    case Admit(id, device, relay) =>
      var t := s.(gate := AfterReserve(s.gate, device, id, s.now));
      if Refusal(s.gate, device, s.now).Some? then t
      else Put(t, id, Session(device, relay, Reserved, [], 0, None, None, s.now, None))
    case List(id) =>
      Put(s, id, s.sessions[id].(stage := Listed)).(listed := s.listed + {id})
    case Count(id) =>
      Put(s, id, s.sessions[id].(stage := Counted)).(gauge := s.gauge + 1)
    case Spawn(id) => Put(s, id, s.sessions[id].(stage := Running))
    case EndRunner(id, reason) =>
      Put(s, id, s.sessions[id].(stage := RunnerEnded, runnerReason := Some(reason)))
    case Decide(id) =>
      var x := s.sessions[id];
      var seen := |x.requests|;
      Put(s, id, x.(stage := Decided, reason := Chosen(x.requests, seen, x.runnerReason), decidedAfter := seen))
    case Remove(id) =>
      Put(s, id, s.sessions[id].(stage := Removed)).(listed := s.listed - {id})
    case GiveBack(id, reason) =>
      var x := s.sessions[id];
      Put(s, id, x.(stage := Released, releasedAt := Some(s.now), reason := if x.relay then Some(reason) else x.reason))
        .(gate := AfterRelease(s.gate, Permit(id, x.device), s.now))
    case CountEnd(id) =>
      var x := s.sessions[id];
      var r := x.reason.value;
      Put(s, id, x.(stage := Ended))
        .(gauge := s.gauge - 1, ended := s.ended[r := (if r in s.ended then s.ended[r] else 0) + 1])
    case Acknowledge(id) => Put(s, id, s.sessions[id].(stage := Done))
    case Look(d, id, reason) =>
      if id in s.listed && id in s.sessions then
        var x := s.sessions[id];
        Put(s, id, x.(requests := x.requests + [reason])).(deletes := s.deletes[d := Delete(id, |x.requests|, Found)])
      else s.(deletes := s.deletes[d := Delete(id, 0, ReturnedNothing)])
    case Check(d) =>
      var x := s.deletes[d];
      var done := x.id in s.sessions && s.sessions[x.id].stage.Done?;
      s.(deletes := s.deletes[d := x.(phase := if done then ReturnedOk else Waiting)])
    case Wake(d) => s.(deletes := s.deletes[d := s.deletes[d].(phase := ReturnedOk)])
    case TimeOut(d) => s.(deletes := s.deletes[d := s.deletes[d].(phase := TimedOut)])
  }

  // ------------------------------------------------------------------ invariant

  predicate HoldsPermit(x: Session) { Rank(x.stage) < 7 }

  predicate IsListed(x: Session) { !x.relay && 1 <= Rank(x.stage) <= 5 }

  predicate InGauge(x: Session) { 2 <= Rank(x.stage) <= 7 }

  predicate HasEnded(x: Session) { Rank(x.stage) >= 8 }

  ghost function Gauged(s: State): set<nat> {
    set id | id in s.sessions && InGauge(s.sessions[id])
  }

  ghost function EndedWith(s: State, r: Reason): set<nat> {
    set id | id in s.sessions && HasEnded(s.sessions[id]) && s.sessions[id].reason == Some(r)
  }

  /** The gate knows exactly the sessions that hold a permit. */
  ghost predicate GateOk(s: State) {
    && (forall d :: d in s.gate.active ==>
          s.gate.active[d] in s.sessions && s.sessions[s.gate.active[d]].device == d
          && HoldsPermit(s.sessions[s.gate.active[d]]))
    && (forall id :: id in s.sessions && HoldsPermit(s.sessions[id]) ==>
          s.sessions[id].device in s.gate.active && s.gate.active[s.sessions[id].device] == id)
  }

  /** A released session keeps its device cooling for ten seconds. */
  ghost predicate CoolingOk(s: State, x: Session) {
    && x.reservedAt <= s.now
    && (x.releasedAt.Some? ==>
          && x.releasedAt.value <= s.now
          && (x.releasedAt.value + SESSION_COOLDOWN <= s.now
              || (x.device in s.gate.cooldowns && s.gate.cooldowns[x.device] >= x.releasedAt.value + SESSION_COOLDOWN)))
  }

  /** Two sessions of one device never overlap and leave ten seconds between them. */
  ghost predicate Apart(x: Session, y: Session) {
    x.device == y.device ==>
      || (x.releasedAt.Some? && x.releasedAt.value + SESSION_COOLDOWN <= y.reservedAt)
      || (y.releasedAt.Some? && y.releasedAt.value + SESSION_COOLDOWN <= x.reservedAt)
  }

  ghost predicate TimesOk(s: State) {
    && (forall id :: id in s.sessions ==> CoolingOk(s, s.sessions[id]))
    && (forall a, b :: a in s.sessions && b in s.sessions && a != b ==> Apart(s.sessions[a], s.sessions[b]))
  }

  ghost predicate SessionOk(x: Session) {
    && (Rank(x.stage) >= 7 <==> x.releasedAt.Some?)
    && (!x.relay && Rank(x.stage) >= 4 ==> x.runnerReason.Some?)
    && (x.decidedAfter <= |x.requests|)
    && (!x.relay && Rank(x.stage) >= 5 ==>
          x.reason == Chosen(x.requests, x.decidedAfter, x.runnerReason) && x.reason.Some?)
    && (x.relay && Rank(x.stage) >= 7 ==> x.reason.Some?)
  }

  ghost predicate SessionsOk(s: State) {
    && (forall id :: id in s.sessions ==> SessionOk(s.sessions[id]))
    && (forall id :: id in s.listed <==> id in s.sessions && IsListed(s.sessions[id]))
  }

  ghost predicate CountsOk(s: State) {
    && s.gauge == |Gauged(s)|
    && (forall r: Reason :: r in s.ended && s.ended[r] == |EndedWith(s, r)|)
  }

  ghost predicate DeleteOk(s: State, d: Delete) {
    (d.phase.Found? || d.phase.Waiting? || d.phase.ReturnedOk? || d.phase.TimedOut?) ==>
      && d.id in s.sessions && !s.sessions[d.id].relay
      && d.request < |s.sessions[d.id].requests|
      && (d.phase.ReturnedOk? ==> s.sessions[d.id].stage.Done?)
  }

  ghost predicate DeletesOk(s: State) {
    forall d :: d in s.deletes ==> DeleteOk(s, s.deletes[d])
  }

  ghost predicate Inv(s: State) {
    GateOk(s) && TimesOk(s) && SessionsOk(s) && CountsOk(s) && DeletesOk(s)
  }

  // ----------------------------------------------------------- every step keeps it

  /** One session moves on while it keeps its permit, or after it has given it back. */
  ghost predicate Moves(s: State, t: State, id: nat, y: Session) {
    && id in s.sessions && t.sessions == s.sessions[id := y] && t.gate == s.gate && t.now == s.now
    && var x := s.sessions[id];
       && y.device == x.device && y.relay == x.relay && y.reservedAt == x.reservedAt && y.releasedAt == x.releasedAt
       && HoldsPermit(y) == HoldsPermit(x)
       && (x.stage.Done? ==> y.stage.Done?)
       && x.requests <= y.requests
  }

  lemma MoveKeepsGate(s: State, t: State, id: nat, y: Session)
    requires GateOk(s) && Moves(s, t, id, y)
    ensures GateOk(t)
  {
  }

  lemma MoveKeepsTimes(s: State, t: State, id: nat, y: Session)
    requires TimesOk(s) && Moves(s, t, id, y)
    ensures TimesOk(t)
  {
    forall i | i in t.sessions
      ensures CoolingOk(t, t.sessions[i])
    {
      assert CoolingOk(s, s.sessions[i]);
    }
    forall a, b | a in t.sessions && b in t.sessions && a != b
      ensures Apart(t.sessions[a], t.sessions[b])
    {
      assert Apart(s.sessions[a], s.sessions[b]);
    }
  }

  lemma MoveKeepsSessions(s: State, t: State, id: nat, y: Session)
    requires SessionsOk(s) && Moves(s, t, id, y) && SessionOk(y)
    requires t.listed == if IsListed(y) then s.listed + {id} else s.listed - {id}
    ensures SessionsOk(t)
  {
  }

  /** The gauge and the end counters follow the session's stage. */
  ghost predicate CountsMove(s: State, t: State, x: Session, y: Session) {
    && t.gauge == s.gauge + (if InGauge(y) then 1 else 0) - (if InGauge(x) then 1 else 0)
    && (HasEnded(x) ==> HasEnded(y) && y.reason == x.reason)
    && if HasEnded(y) && !HasEnded(x)
       then y.reason.Some? && y.reason.value in s.ended
            && t.ended == s.ended[y.reason.value := s.ended[y.reason.value] + 1]
       else t.ended == s.ended
  }

  lemma MoveKeepsGauge(s: State, t: State, id: nat, y: Session)
    requires s.gauge == |Gauged(s)| && Moves(s, t, id, y)
    requires t.gauge == s.gauge + (if InGauge(y) then 1 else 0) - (if InGauge(s.sessions[id]) then 1 else 0)
    ensures t.gauge == |Gauged(t)|
  {
    var before, after := Gauged(s), Gauged(t);
    assert forall i :: i != id ==> (i in before <==> i in after);
    assert id in before <==> InGauge(s.sessions[id]);
    assert id in after <==> InGauge(y);
    OneMoves(before, after, id);
  }

  lemma OneMoves(before: set<nat>, after: set<nat>, id: nat)
    requires forall i :: i != id ==> (i in before <==> i in after)
    ensures |after| == |before| + (if id in after then 1 else 0) - (if id in before then 1 else 0)
  {
    assert after - {id} == before - {id};
    assert |after| == |after - {id}| + if id in after then 1 else 0;
    assert |before| == |before - {id}| + if id in before then 1 else 0;
  }

  lemma EndedMoves(s: State, t: State, id: nat, y: Session, r: Reason)
    requires Moves(s, t, id, y) && (HasEnded(s.sessions[id]) ==> HasEnded(y) && y.reason == s.sessions[id].reason)
    ensures |EndedWith(t, r)| == |EndedWith(s, r)|
              + if HasEnded(y) && !HasEnded(s.sessions[id]) && y.reason == Some(r) then 1 else 0
  {
    var before, after := EndedWith(s, r), EndedWith(t, r);
    assert forall i :: i != id ==> (i in before <==> i in after);
    assert id in before <==> HasEnded(s.sessions[id]) && s.sessions[id].reason == Some(r);
    assert id in after <==> HasEnded(y) && y.reason == Some(r);
    OneMoves(before, after, id);
  }

  lemma MoveKeepsCounts(s: State, t: State, id: nat, y: Session)
    requires CountsOk(s) && Moves(s, t, id, y) && CountsMove(s, t, s.sessions[id], y)
    ensures CountsOk(t)
  {
    MoveKeepsGauge(s, t, id, y);
    forall r: Reason
      ensures r in t.ended && t.ended[r] == |EndedWith(t, r)|
    {
      EndedMoves(s, t, id, y, r);
    }
  }

  lemma MoveKeepsDeletes(s: State, t: State, id: nat, y: Session)
    requires DeletesOk(s) && Moves(s, t, id, y) && t.deletes == s.deletes
    ensures DeletesOk(t)
  {
    forall d | d in t.deletes
      ensures DeleteOk(t, t.deletes[d])
    {
      assert DeleteOk(s, s.deletes[d]);
    }
  }

  lemma MoveKeeps(s: State, t: State, id: nat, y: Session)
    requires Inv(s) && MovesOn(s, t, id, y)
    ensures Inv(t)
  {
    MoveKeepsGate(s, t, id, y);
    MoveKeepsTimes(s, t, id, y);
    MoveKeepsSessions(s, t, id, y);
    MoveKeepsCounts(s, t, id, y);
    MoveKeepsDeletes(s, t, id, y);
  }

  /** A move that keeps the map, the gauge and the counters in step with the session. */
  ghost predicate MovesOn(s: State, t: State, id: nat, y: Session) {
    && Moves(s, t, id, y) && SessionOk(y) && CountsMove(s, t, s.sessions[id], y) && t.deletes == s.deletes
    && t.listed == if IsListed(y) then s.listed + {id} else s.listed - {id}
  }

  /** Steps of one session that touch neither gate nor deletes. */
  predicate IsMove(step: Step) {
    step.List? || step.Count? || step.Spawn? || step.EndRunner? || step.Decide? || step.Remove? || step.CountEnd?
    || step.Acknowledge?
  }

  lemma MoveStepKeeps(s: State, step: Step)
    requires Inv(s) && Enabled(s, step) && IsMove(step)
    ensures Inv(Next(s, step))
  {
    var id, t := step.id, Next(s, step);
    SessionFacts(s, id);
    if step.Decide? || step.Remove? {
      MiddleStepMoves(s, step, id);
    } else if step.CountEnd? || step.Acknowledge? {
      LateStepMoves(s, step, id);
    } else {
      EarlyStepMoves(s, step, id);
    }
    MoveKeeps(s, t, id, t.sessions[id]);
  }

  lemma SessionFacts(s: State, id: nat)
    requires SessionsOk(s) && CountsOk(s) && id in s.sessions
    ensures SessionOk(s.sessions[id]) && (id in s.listed <==> IsListed(s.sessions[id]))
    ensures forall r: Reason :: r in s.ended
  {
  }

  lemma EarlyStepMoves(s: State, step: Step, id: nat)
    requires Enabled(s, step) && (step.List? || step.Count? || step.Spawn? || step.EndRunner?) && step.id == id
    requires SessionOk(s.sessions[id]) && (id in s.listed <==> IsListed(s.sessions[id]))
    ensures MovesOn(s, Next(s, step), id, Next(s, step).sessions[id])
  {
  }

  lemma MiddleStepMoves(s: State, step: Step, id: nat)
    requires Enabled(s, step) && (step.Decide? || step.Remove?) && step.id == id
    requires SessionOk(s.sessions[id]) && (id in s.listed <==> IsListed(s.sessions[id]))
    ensures MovesOn(s, Next(s, step), id, Next(s, step).sessions[id])
  {
  }

  lemma LateStepMoves(s: State, step: Step, id: nat)
    requires Enabled(s, step) && (step.CountEnd? || step.Acknowledge?) && step.id == id
    requires SessionOk(s.sessions[id]) && (id in s.listed <==> IsListed(s.sessions[id]))
    requires forall r: Reason :: r in s.ended
    ensures MovesOn(s, Next(s, step), id, Next(s, step).sessions[id])
  {
    assert s.listed - {id} == s.listed;
  }

  // Reserve, release, delete and time

  /** Counters and deletes do not notice a change outside the gauge and the ended sessions. */
  lemma CountersKept(s: State, t: State)
    requires CountsOk(s) && DeletesOk(s) && t.gauge == s.gauge && t.ended == s.ended && t.deletes == s.deletes
    requires forall id :: id in s.sessions ==>
      && id in t.sessions && InGauge(t.sessions[id]) == InGauge(s.sessions[id])
      && HasEnded(t.sessions[id]) == HasEnded(s.sessions[id])
      && (HasEnded(s.sessions[id]) ==> t.sessions[id].reason == s.sessions[id].reason)
      && t.sessions[id].relay == s.sessions[id].relay && t.sessions[id].requests == s.sessions[id].requests
      && (s.sessions[id].stage.Done? ==> t.sessions[id].stage.Done?)
    requires forall id :: id in t.sessions && id !in s.sessions ==>
      !InGauge(t.sessions[id]) && !HasEnded(t.sessions[id])
    ensures CountsOk(t) && DeletesOk(t)
  {
    assert Gauged(t) == Gauged(s);
    forall r: Reason
      ensures EndedWith(t, r) == EndedWith(s, r)
    {
    }
    forall d | d in t.deletes
      ensures DeleteOk(t, t.deletes[d])
    {
      assert DeleteOk(s, s.deletes[d]);
    }
  }

  lemma ReserveKeeps(s: State, id: nat, device: string, relay: bool)
    requires Inv(s) && Enabled(s, Admit(id, device, relay))
    ensures Inv(Next(s, Admit(id, device, relay)))
  {
    ReserveTimes(s, id, device, relay);
    ReserveGate(s, id, device, relay);
    ReserveSessions(s, id, device, relay);
    ReserveCounters(s, id, device, relay);
  }

  lemma ReserveCounters(s: State, id: nat, device: string, relay: bool)
    requires CountsOk(s) && DeletesOk(s) && Enabled(s, Admit(id, device, relay))
    ensures CountsOk(Next(s, Admit(id, device, relay))) && DeletesOk(Next(s, Admit(id, device, relay)))
  {
    CountersKept(s, Next(s, Admit(id, device, relay)));
  }

  lemma ReserveGate(s: State, id: nat, device: string, relay: bool)
    requires GateOk(s) && Enabled(s, Admit(id, device, relay))
    ensures GateOk(Next(s, Admit(id, device, relay)))
  {
  }

  lemma ReserveSessions(s: State, id: nat, device: string, relay: bool)
    requires SessionsOk(s) && Enabled(s, Admit(id, device, relay))
    ensures SessionsOk(Next(s, Admit(id, device, relay)))
  {
  }

  lemma ReserveTimes(s: State, id: nat, device: string, relay: bool)
    requires GateOk(s) && TimesOk(s) && SessionsOk(s) && Enabled(s, Admit(id, device, relay))
    ensures TimesOk(Next(s, Admit(id, device, relay)))
  {
    var t := Next(s, Admit(id, device, relay));
    forall i | i in t.sessions
      ensures CoolingOk(t, t.sessions[i])
    {
      if i in s.sessions {
        ReserveKeepsCooling(s, id, device, relay, i);
      }
    }
    forall a, b | a in t.sessions && b in t.sessions && a != b
      ensures Apart(t.sessions[a], t.sessions[b])
    {
      if a in s.sessions && b in s.sessions {
        assert Apart(s.sessions[a], s.sessions[b]);
      } else {
        ReservedIsApart(s, id, device, relay, if a in s.sessions then a else b);
      }
    }
  }

  lemma ReserveKeepsCooling(s: State, id: nat, device: string, relay: bool, i: nat)
    requires Enabled(s, Admit(id, device, relay)) && i in s.sessions && CoolingOk(s, s.sessions[i])
    ensures CoolingOk(Next(s, Admit(id, device, relay)), s.sessions[i])
  {
  }

  lemma ReservedIsApart(s: State, id: nat, device: string, relay: bool, i: nat)
    requires GateOk(s) && TimesOk(s) && SessionsOk(s) && Enabled(s, Admit(id, device, relay))
    requires i in s.sessions && Refusal(s.gate, device, s.now).None?
    ensures Apart(Next(s, Admit(id, device, relay)).sessions[id], s.sessions[i])
  {
    assert CoolingOk(s, s.sessions[i]) && SessionOk(s.sessions[i]);
  }

  lemma ReleaseKeeps(s: State, id: nat, reason: Reason)
    requires Inv(s) && Enabled(s, GiveBack(id, reason))
    ensures Inv(Next(s, GiveBack(id, reason)))
  {
    assert SessionOk(s.sessions[id]);
    ReleaseFreesOwn(s, id, reason);
    ReleaseTimes(s, id, reason);
    ReleaseSessions(s, id, reason);
    ReleaseCounters(s, id, reason);
  }

  lemma ReleaseCounters(s: State, id: nat, reason: Reason)
    requires CountsOk(s) && DeletesOk(s) && Enabled(s, GiveBack(id, reason))
    ensures CountsOk(Next(s, GiveBack(id, reason))) && DeletesOk(Next(s, GiveBack(id, reason)))
  {
    CountersKept(s, Next(s, GiveBack(id, reason)));
  }

  /** The worker's release is effective: the gate holds this very permit. */
  lemma ReleaseFreesOwn(s: State, id: nat, reason: Reason)
    requires GateOk(s) && Enabled(s, GiveBack(id, reason))
    ensures var d := s.sessions[id].device;
            Next(s, GiveBack(id, reason)).gate
            == Gate(s.gate.active - {d}, s.gate.cooldowns[d := s.now + SESSION_COOLDOWN])
    ensures GateOk(Next(s, GiveBack(id, reason)))
  {
  }

  lemma ReleaseSessions(s: State, id: nat, reason: Reason)
    requires SessionsOk(s) && Enabled(s, GiveBack(id, reason))
    ensures SessionsOk(Next(s, GiveBack(id, reason)))
  {
    var t := Next(s, GiveBack(id, reason));
    assert SessionOk(s.sessions[id]);
    assert SessionOk(t.sessions[id]);
  }

  lemma ReleaseTimes(s: State, id: nat, reason: Reason)
    requires TimesOk(s) && SessionsOk(s) && Enabled(s, GiveBack(id, reason))
    requires Next(s, GiveBack(id, reason)).gate.cooldowns
          == s.gate.cooldowns[s.sessions[id].device := s.now + SESSION_COOLDOWN]
    ensures TimesOk(Next(s, GiveBack(id, reason)))
  {
    var t := Next(s, GiveBack(id, reason));
    assert SessionOk(s.sessions[id]) && HoldsPermit(s.sessions[id]);
    forall i | i in t.sessions
      ensures CoolingOk(t, t.sessions[i])
    {
      assert CoolingOk(s, s.sessions[i]);
    }
    forall a, b | a in t.sessions && b in t.sessions && a != b
      ensures Apart(t.sessions[a], t.sessions[b])
    {
      assert Apart(s.sessions[a], s.sessions[b]);
    }
  }

  lemma DeleteStepKeeps(s: State, step: Step)
    requires Inv(s) && Enabled(s, step) && (step.Check? || step.Wake? || step.TimeOut?)
    ensures Inv(Next(s, step))
  {
    var t := Next(s, step);
    assert DeleteOk(s, s.deletes[step.d]);
    forall d | d in t.deletes
      ensures DeleteOk(t, t.deletes[d])
    {
      if d in s.deletes {
        assert DeleteOk(s, s.deletes[d]);
      }
    }
    OnlyDeletesChanged(s, t);
  }

  lemma OnlyDeletesChanged(s: State, t: State)
    requires Inv(s) && t.(deletes := s.deletes) == s
    ensures GateOk(t) && TimesOk(t) && SessionsOk(t) && CountsOk(t)
  {
    forall i | i in t.sessions
      ensures CoolingOk(t, t.sessions[i])
    {
      assert CoolingOk(s, s.sessions[i]);
    }
    assert Gauged(t) == Gauged(s);
    assert forall r: Reason :: EndedWith(t, r) == EndedWith(s, r);
  }

  lemma LookKeeps(s: State, d: nat, id: nat, reason: Reason)
    requires Inv(s) && Enabled(s, Look(d, id, reason))
    ensures Inv(Next(s, Look(d, id, reason)))
  {
    var t := Next(s, Look(d, id, reason));
    if id in s.listed && id in s.sessions {
      var mid := t.(deletes := s.deletes);
      RequestKeeps(s, mid, id, reason);
      DeleteAdded(mid, t, d);
    } else {
      DeleteAdded(s, t, d);
    }
  }

  lemma RequestKeeps(s: State, mid: State, id: nat, reason: Reason)
    requires Inv(s) && id in s.listed && id in s.sessions
    requires mid == Put(s, id, s.sessions[id].(requests := s.sessions[id].requests + [reason]))
    ensures Inv(mid)
  {
    assert SessionOk(s.sessions[id]);
    assert mid.listed == s.listed + {id};
    MoveKeeps(s, mid, id, mid.sessions[id]);
  }

  lemma DeleteAdded(s: State, t: State, d: nat)
    requires Inv(s) && t.(deletes := s.deletes) == s && d !in s.deletes && d in t.deletes
    requires t.deletes == s.deletes[d := t.deletes[d]] && DeleteOk(t, t.deletes[d])
    ensures Inv(t)
  {
    OnlyDeletesChanged(s, t);
    forall e | e in t.deletes
      ensures DeleteOk(t, t.deletes[e])
    {
      if e != d {
        assert DeleteOk(s, s.deletes[e]);
      }
    }
  }

  lemma ElapseKeeps(s: State, seconds: nat)
    requires Inv(s)
    ensures Inv(Next(s, Elapse(seconds)))
  {
    var t := Next(s, Elapse(seconds));
    forall i | i in t.sessions
      ensures CoolingOk(t, t.sessions[i])
    {
      assert CoolingOk(s, s.sessions[i]);
    }
    assert Gauged(t) == Gauged(s);
    assert forall r: Reason :: EndedWith(t, r) == EndedWith(s, r);
    forall d | d in t.deletes
      ensures DeleteOk(t, t.deletes[d])
    {
      assert DeleteOk(s, s.deletes[d]);
    }
  }

  lemma StepKeeps(s: State, step: Step)
    requires Inv(s) && Enabled(s, step)
    ensures Inv(Next(s, step))
  {
    match step
    case Elapse(seconds) => ElapseKeeps(s, seconds);
    case Admit(id, device, relay) => ReserveKeeps(s, id, device, relay);
    case GiveBack(id, reason) => ReleaseKeeps(s, id, reason);
    case Look(d, id, reason) => LookKeeps(s, d, id, reason);
    case Check(_) => DeleteStepKeeps(s, step);
    case Wake(_) => DeleteStepKeeps(s, step);
    case TimeOut(_) => DeleteStepKeeps(s, step);
    case _ => MoveStepKeeps(s, step);
  }

  // ------------------------------------------------------------------ whole runs

  ghost predicate IsRun(states: seq<State>, steps: seq<Step>) {
    && |states| == |steps| + 1
    && Init(states[0])
    && forall i :: 0 <= i < |steps| ==> Enabled(states[i], steps[i]) && states[i + 1] == Next(states[i], steps[i])
  }

  lemma {:induction false} RunKeeps(states: seq<State>, steps: seq<Step>)
    requires IsRun(states, steps)
    ensures Inv(states[|steps|])
    decreases |steps|
  {
    if steps == [] {
      assert Gauged(states[0]) == {};
      assert forall r: Reason :: EndedWith(states[0], r) == {};
    } else {
      var n := |steps| - 1;
      RunKeeps(states[..n + 1], steps[..n]);
      StepKeeps(states[n], steps[n]);
    }
  }

  /** At most one session of a device holds the permit, and any two sessions of a device are disjoint in
      time with at least ten seconds between them, whether direct or relay. */
  lemma SessionsOfADeviceNeverOverlap(states: seq<State>, steps: seq<Step>, a: nat, b: nat)
    requires IsRun(states, steps)
    requires a in states[|steps|].sessions && b in states[|steps|].sessions && a != b
    requires states[|steps|].sessions[a].device == states[|steps|].sessions[b].device
    ensures var x, y := states[|steps|].sessions[a], states[|steps|].sessions[b];
            && !(HoldsPermit(x) && HoldsPermit(y))
            && Apart(x, y)
  {
    RunKeeps(states, steps);
    var s := states[|steps|];
    assert SessionOk(s.sessions[a]) && SessionOk(s.sessions[b]);
  }

  /** Conservation: the active gauge is the number of sessions counted in and not yet counted out, so it
      is never negative, and every end is counted once, under the session's own reason. */
  lemma GaugeIsConserved(states: seq<State>, steps: seq<Step>)
    requires IsRun(states, steps)
    ensures var s := states[|steps|];
            && s.gauge == |set id | id in s.sessions && InGauge(s.sessions[id])| >= 0
            && forall r: Reason :: r in s.ended && s.ended[r] == |EndedWith(s, r)|
  {
    RunKeeps(states, steps);
    assert Gauged(states[|steps|]) == set id | id in states[|steps|].sessions && InGauge(states[|steps|].sessions[id]);
  }

  /** The runner has ended, the session is out of the map, its permit is back with the cooldown set, and
      its end was counted, under the last reason stored before the worker read it if that is a client's,
      else under the runner's own. */
  ghost predicate TornDown(s: State, id: nat)
    requires id in s.sessions
  {
    var x := s.sessions[id];
    && x.runnerReason.Some?
    && id !in s.listed
    && (x.device in s.gate.active ==> s.gate.active[x.device] != id)
    && x.releasedAt.Some? && CoolingOk(s, x)
    && id !in Gauged(s)
    && x.reason.Some? && id in EndedWith(s, x.reason.value)
    && x.decidedAfter <= |x.requests| && x.reason == Chosen(x.requests, x.decidedAfter, x.runnerReason)
  }

  /** Teardown handshake: when a delete that found its session returns Ok, teardown is complete. */
  lemma DeleteReturnsAfterTeardown(states: seq<State>, steps: seq<Step>, d: nat)
    requires IsRun(states, steps)
    requires d in states[|steps|].deletes && states[|steps|].deletes[d].phase.ReturnedOk?
    ensures var s := states[|steps|];
            var id := s.deletes[d].id;
            id in s.sessions && TornDown(s, id)
  {
    RunKeeps(states, steps);
    FoundAndDone(states[|steps|], d);
  }

  lemma FoundAndDone(s: State, d: nat)
    requires GateOk(s) && TimesOk(s) && SessionsOk(s) && DeletesOk(s)
    requires d in s.deletes && s.deletes[d].phase.ReturnedOk?
    ensures s.deletes[d].id in s.sessions && TornDown(s, s.deletes[d].id)
  {
    var id := s.deletes[d].id;
    assert DeleteOk(s, s.deletes[d]);
    DoneIsTornDown(s, id);
  }

  lemma DoneIsTornDown(s: State, id: nat)
    requires GateOk(s) && TimesOk(s) && SessionsOk(s)
    requires id in s.sessions && !s.sessions[id].relay && s.sessions[id].stage.Done?
    ensures TornDown(s, id)
  {
    assert SessionOk(s.sessions[id]) && CoolingOk(s, s.sessions[id]);
  }

  // ------------------------------------------------------------------ which reason is counted

  /** The step is a delete that finds the session and stores its reason. */
  ghost predicate Stores(states: seq<State>, steps: seq<Step>, j: nat, id: nat)
    requires j < |steps| <= |states|
  {
    steps[j].Look? && steps[j].id == id && id in states[j].listed
  }

  /** The reasons stored for a session by the first `n` steps, oldest first. */
  ghost function Stored(states: seq<State>, steps: seq<Step>, n: nat, id: nat): seq<Reason>
    requires n <= |steps| <= |states|
  {
    if n == 0 then []
    else Stored(states, steps, n - 1, id) + if Stores(states, steps, n - 1, id) then [steps[n - 1].reason] else []
  }

  lemma InvAt(states: seq<State>, steps: seq<Step>, n: nat)
    requires IsRun(states, steps) && n <= |steps|
    ensures Inv(states[n])
  {
    RunKeeps(states[..n + 1], steps[..n]);
  }

  lemma SessionsOkAt(states: seq<State>, steps: seq<Step>, n: nat)
    requires IsRun(states, steps) && n <= |steps|
    ensures SessionsOk(states[n])
  {
    InvAt(states, steps, n);
  }

  /** A session's requests are what deletes stored for it. */
  lemma {:induction false} RequestsAreStored(states: seq<State>, steps: seq<Step>, n: nat, id: nat)
    requires IsRun(states, steps) && n <= |steps|
    ensures Stored(states, steps, n, id) ==
            if id in states[n].sessions then states[n].sessions[id].requests else []
  {
    if n > 0 {
      RequestsAreStored(states, steps, n - 1, id);
      SessionsOkAt(states, steps, n - 1);
      RequestStep(states[n - 1], steps[n - 1], id);
    }
  }

  /** One step adds a request exactly if it is a delete that finds the session. */
  lemma RequestStep(s: State, step: Step, id: nat)
    requires Enabled(s, step) && SessionsOk(s)
    ensures var t := Next(s, step);
            var before := if id in s.sessions then s.sessions[id].requests else [];
            (if id in t.sessions then t.sessions[id].requests else []) ==
              before + if step.Look? && step.id == id && id in s.listed then [step.reason] else []
  {
  }

  /** A runner's reason is the one its own end gave. */
  lemma {:induction false} RunnerSaid(states: seq<State>, steps: seq<Step>, n: nat, id: nat) returns (e: nat)
    requires IsRun(states, steps) && n <= |steps|
    requires id in states[n].sessions && states[n].sessions[id].runnerReason.Some?
    ensures e < n && steps[e].EndRunner? && steps[e].id == id
    ensures states[n].sessions[id].runnerReason == Some(steps[e].reason)
  {
    if n > 0 {
      if steps[n - 1].EndRunner? && steps[n - 1].id == id {
        e := n - 1;
      } else {
        SameRunnerReason(states[n - 1], steps[n - 1], id);
        e := RunnerSaid(states, steps, n - 1, id);
      }
    }
  }

  lemma SameRunnerReason(s: State, step: Step, id: nat)
    requires Enabled(s, step) && !(step.EndRunner? && step.id == id)
    requires id in Next(s, step).sessions && Next(s, step).sessions[id].runnerReason.Some?
    ensures id in s.sessions && s.sessions[id].runnerReason == Next(s, step).sessions[id].runnerReason
  {
  }

  /** The worker's decision, taken when it was taken. */
  lemma {:induction false} DecidedOnce(states: seq<State>, steps: seq<Step>, n: nat, id: nat) returns (k: nat)
    requires IsRun(states, steps) && n <= |steps| && id in states[n].sessions
    requires !states[n].sessions[id].relay && Rank(states[n].sessions[id].stage) >= 5
    ensures k < n && steps[k] == Decide(id) && id in states[k].sessions
    ensures var x := states[k].sessions[id];
            && x.runnerReason.Some?
            && states[n].sessions[id].reason ==
               (if x.requests != [] && x.requests[|x.requests| - 1] in CLIENT_REASONS
                then Some(x.requests[|x.requests| - 1]) else x.runnerReason)
  {
    if n > 0 {
      SessionsOkAt(states, steps, n - 1);
      if steps[n - 1] == Decide(id) {
        k := n - 1;
        Decides(states[k], id);
      } else {
        SameReason(states[n - 1], steps[n - 1], id);
        k := DecidedOnce(states, steps, n - 1, id);
      }
    }
  }

  lemma Decides(s: State, id: nat)
    requires Enabled(s, Decide(id)) && SessionsOk(s)
    ensures var x := s.sessions[id];
            && x.runnerReason.Some?
            && Next(s, Decide(id)).sessions[id].reason ==
               (if x.requests != [] && x.requests[|x.requests| - 1] in CLIENT_REASONS
                then Some(x.requests[|x.requests| - 1]) else x.runnerReason)
  {
    assert SessionOk(s.sessions[id]);
  }

  lemma SameReason(s: State, step: Step, id: nat)
    requires Enabled(s, step) && step != Decide(id) && id in Next(s, step).sessions
    requires !Next(s, step).sessions[id].relay && Rank(Next(s, step).sessions[id].stage) >= 5
    ensures id in s.sessions && !s.sessions[id].relay && Rank(s.sessions[id].stage) >= 5
    ensures s.sessions[id].reason == Next(s, step).sessions[id].reason
  {
  }

  /** Reasons that a client may ask for. */
  const CLIENT_REASONS := {UserStop, PanelClosed, ClientExpired, ConnectionEnded, StartFailed}

  lemma {:induction false} LastStored(states: seq<State>, steps: seq<Step>, k: nat, id: nat, j: nat)
    requires k <= |steps| <= |states| && j < k && Stores(states, steps, j, id)
    requires forall i :: j < i < k ==> !Stores(states, steps, i, id)
    ensures var all := Stored(states, steps, k, id); all != [] && all[|all| - 1] == steps[j].reason
  {
    if j < k - 1 {
      LastStored(states, steps, k - 1, id, j);
    }
  }

  lemma {:induction false} NoneStored(states: seq<State>, steps: seq<Step>, k: nat, id: nat)
    requires k <= |steps| <= |states| && forall i :: 0 <= i < k ==> !Stores(states, steps, i, id)
    ensures Stored(states, steps, k, id) == []
  {
    if k > 0 {
      NoneStored(states, steps, k - 1, id);
    }
  }

  /** When a delete that found its session returns Ok, the worker had decided at some step `k`, after its runner ended
      at step `e`. The end is counted under the reason of the last delete that found the session before `k` if that
      is one a client may ask for; under the runner's reason if it is not, or if there was no such delete. */
  lemma EndCountedUnderTheLastRequest(states: seq<State>, steps: seq<Step>, d: nat) returns (k: nat, e: nat)
    requires IsRun(states, steps)
    requires d in states[|steps|].deletes && states[|steps|].deletes[d].phase.ReturnedOk?
    ensures var s := states[|steps|];
            var id := s.deletes[d].id;
            && e < k < |steps| && steps[k] == Decide(id) && steps[e].EndRunner? && steps[e].id == id
            && (forall j :: 0 <= j < k && Stores(states, steps, j, id)
                            && (forall i :: j < i < k ==> !Stores(states, steps, i, id)) ==>
                  id in EndedWith(s, if steps[j].reason in CLIENT_REASONS then steps[j].reason else steps[e].reason))
            && ((forall i :: 0 <= i < k ==> !Stores(states, steps, i, id)) ==> id in EndedWith(s, steps[e].reason))
  {
    var n := |steps|;
    RunKeeps(states, steps);
    var id := states[n].deletes[d].id;
    FoundAndDone(states[n], d);
    assert DeleteOk(states[n], states[n].deletes[d]);
    k := DecidedOnce(states, steps, n, id);
    e := RunnerSaid(states, steps, k, id);
    RequestsAreStored(states, steps, k, id);
    forall j | 0 <= j < k && Stores(states, steps, j, id) && (forall i :: j < i < k ==> !Stores(states, steps, i, id))
      ensures id in EndedWith(states[n], if steps[j].reason in CLIENT_REASONS then steps[j].reason else steps[e].reason)
    {
      LastStored(states, steps, k, id, j);
    }
    if forall i :: 0 <= i < k ==> !Stores(states, steps, i, id) {
      NoneStored(states, steps, k, id);
    }
  }

  // ------------------------------------------------------------------ nothing is stuck

  /** What a session does next. */
  function Ahead(x: Session, id: nat, reason: Reason): Step {
    match x.stage
    case Reserved => if x.relay then Count(id) else List(id)
    case Listed => Count(id)
    case Counted => if x.relay then GiveBack(id, reason) else Spawn(id)
    case Running => EndRunner(id, reason)
    case RunnerEnded => Decide(id)
    case Decided => Remove(id)
    case Removed => GiveBack(id, reason)
    case Released => CountEnd(id)
    case _ => Acknowledge(id)
  }

  /** In every reachable state, every session that has not ended can take its next step, whatever the others do,
      and gets on by it; a relay session ends with being counted, a direct one with being acknowledged. */
  lemma NoSessionIsStuck(states: seq<State>, steps: seq<Step>, id: nat, reason: Reason)
    requires IsRun(states, steps) && id in states[|steps|].sessions
    requires var x := states[|steps|].sessions[id]; !x.stage.Done? && !(x.relay && x.stage.Ended?)
    ensures GetsOn(states[|steps|], id, Ahead(states[|steps|].sessions[id], id, reason))
  {
    SessionsOkAt(states, steps, |steps|);
    RelayStages(states, steps, |steps|, id);
    AheadGetsOn(states[|steps|], id, reason);
  }

  /** The step can be taken and brings the session forward. */
  ghost predicate GetsOn(s: State, id: nat, step: Step) {
    && Enabled(s, step) && id in s.sessions && id in Next(s, step).sessions
    && Rank(Next(s, step).sessions[id].stage) > Rank(s.sessions[id].stage)
  }

  ghost predicate RelayStage(x: Session) {
    x.relay ==> x.stage.Reserved? || x.stage.Counted? || x.stage.Released? || x.stage.Ended?
  }

  lemma AheadGetsOn(s: State, id: nat, reason: Reason)
    requires id in s.sessions && SessionOk(s.sessions[id]) && RelayStage(s.sessions[id])
    requires var x := s.sessions[id]; !x.stage.Done? && !(x.relay && x.stage.Ended?)
    ensures GetsOn(s, id, Ahead(s.sessions[id], id, reason))
  {
    if Rank(s.sessions[id].stage) < 4 {
      EarlyGetsOn(s, id, reason);
    } else {
      LateGetsOn(s, id, reason);
    }
  }

  lemma EarlyGetsOn(s: State, id: nat, reason: Reason)
    requires id in s.sessions && RelayStage(s.sessions[id]) && Rank(s.sessions[id].stage) < 4
    ensures GetsOn(s, id, Ahead(s.sessions[id], id, reason))
  {
  }

  lemma LateGetsOn(s: State, id: nat, reason: Reason)
    requires id in s.sessions && SessionOk(s.sessions[id]) && RelayStage(s.sessions[id])
    requires var x := s.sessions[id]; 4 <= Rank(x.stage) < 9 && !(x.relay && x.stage.Ended?)
    ensures GetsOn(s, id, Ahead(s.sessions[id], id, reason))
  {
  }

  /** A relay session is never listed, run, decided, removed or acknowledged. */
  lemma {:induction false} RelayStages(states: seq<State>, steps: seq<Step>, n: nat, id: nat)
    requires IsRun(states, steps) && n <= |steps| && id in states[n].sessions
    ensures RelayStage(states[n].sessions[id])
  {
    if n > 0 {
      if id in states[n - 1].sessions {
        RelayStages(states, steps, n - 1, id);
      }
      RelayStep(states[n - 1], steps[n - 1], id);
    }
  }

  lemma RelayStep(s: State, step: Step, id: nat)
    requires Enabled(s, step) && (id in s.sessions ==> RelayStage(s.sessions[id]))
    requires id in Next(s, step).sessions
    ensures RelayStage(Next(s, step).sessions[id])
  {
  }

  /** A delete that found its session can always look at the acknowledgement, give up while it waits, and wake once
      the session is acknowledged. */
  lemma NoDeleteIsStuck(s: State, d: nat)
    requires DeletesOk(s) && d in s.deletes
    ensures s.deletes[d].phase.Found? ==>
              && Enabled(s, Check(d))
              && Next(s, Check(d)).deletes[d].phase ==
                 if s.sessions[s.deletes[d].id].stage.Done? then ReturnedOk else Waiting
    ensures s.deletes[d].phase.Waiting? ==>
              && Enabled(s, TimeOut(d)) && Next(s, TimeOut(d)).deletes[d].phase.TimedOut?
              && (Enabled(s, Wake(d)) <==> s.sessions[s.deletes[d].id].stage.Done?)
  {
    assert DeleteOk(s, s.deletes[d]);
  }

  /** A new session is admitted exactly if no session of its device holds a permit and the device is not cooling. */
  lemma AdmittedExactly(s: State, id: nat, device: string, relay: bool)
    requires Inv(s) && id !in s.sessions
    ensures Enabled(s, Admit(id, device, relay))
    ensures id in Next(s, Admit(id, device, relay)).sessions <==>
            && (forall other :: other in s.sessions && s.sessions[other].device == device ==>
                  !HoldsPermit(s.sessions[other]))
            && (device in s.gate.cooldowns ==> s.gate.cooldowns[device] <= s.now)
  {
    if device in s.gate.active {
      assert HoldsPermit(s.sessions[s.gate.active[device]]);
    }
  }
}
