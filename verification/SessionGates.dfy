/**
 The per-device session gate: one live permit per device, and a ten-second cooldown after release.
 */
module SessionGates {
  import opened Wrappers

  const SESSION_COOLDOWN := 10

  datatype Permit = Permit(id: nat, device: string)

  datatype GateError = SessionBusy | RateLimited

  datatype Gate = Gate(active: map<string, nat>, cooldowns: map<string, int>)

  const OPEN := Gate(map[], map[])

  function Cooling(cooldowns: map<string, int>, now: int): map<string, int> {
    map d | d in cooldowns && cooldowns[d] > now :: cooldowns[d]
  }

  function Refusal(g: Gate, device: string, now: int): Option<GateError> {
    if device in g.active then Some(SessionBusy)
    else if device in Cooling(g.cooldowns, now) then Some(RateLimited)
    else None
  }

  function AfterReserve(g: Gate, device: string, id: nat, now: int): Gate {
    Gate(if Refusal(g, device, now).None? then g.active[device := id] else g.active, Cooling(g.cooldowns, now))
  }

  function AfterRelease(g: Gate, permit: Permit, now: int): Gate {
    if permit.device in g.active && g.active[permit.device] == permit.id
    then Gate(g.active - {permit.device}, g.cooldowns[permit.device := now + SESSION_COOLDOWN])
    else g
  }

  class SessionGate {
    var active: map<string, nat>
    var cooldowns: map<string, int>

    function Value(): Gate
      reads this
    {
      Gate(active, cooldowns)
    }

    constructor ()
      ensures Value() == OPEN
    {
      active, cooldowns := map[], map[];
    }

    method Reserve(device: string, id: nat, now: int) returns (r: Result<Permit, GateError>)
      modifies this
      ensures Value() == AfterReserve(old(Value()), device, id, now)
      ensures r == match Refusal(old(Value()), device, now)
                   case None => Ok(Permit(id, device)) case Some(e) => Err(e)
    {
      cooldowns := map d | d in cooldowns && cooldowns[d] > now :: cooldowns[d];
      if device in active {
        return Err(SessionBusy);
      }
      if device in cooldowns {
        return Err(RateLimited);
      }
      active := active[device := id];
      r := Ok(Permit(id, device));
    }

    method Release(permit: Permit, now: int)
      modifies this
      ensures Value() == AfterRelease(old(Value()), permit, now)
    {
      if permit.device in active && active[permit.device] == permit.id {
        active := active - {permit.device};
        cooldowns := cooldowns[permit.device := now + SESSION_COOLDOWN];
      }
    }
  }

  // ------------------------------------------------------------ any sequence of calls

  datatype Call =
    | Reserve(device: string, id: nat, at: int)
    | Release(permit: Permit, at: int)        // by any holder, any number of times

  function GateAfter(calls: seq<Call>): Gate {
    if calls == [] then OPEN
    else
      var g := GateAfter(calls[..|calls| - 1]);
      match calls[|calls| - 1]
      case Reserve(device, id, at) => AfterReserve(g, device, id, at)
      case Release(permit, at) => AfterRelease(g, permit, at)
  }

  /** The n-th call handed out a permit. */
  predicate Granted(calls: seq<Call>, n: nat)
    requires n < |calls|
  {
    calls[n].Reserve? && Refusal(GateAfter(calls[..n]), calls[n].device, calls[n].at).None?
  }

  /** The n-th call gave back the permit that was live at that moment. */
  predicate Freed(calls: seq<Call>, n: nat)
    requires n < |calls|
  {
    calls[n].Release? && AfterRelease(GateAfter(calls[..n]), calls[n].permit, calls[n].at) != GateAfter(calls[..n])
  }

  ghost predicate OrderlyClock(calls: seq<Call>) {
    forall i, j :: 0 <= i < j < |calls| ==> calls[i].at <= calls[j].at
  }

  /** A release acts exactly when it returns the permit that is live: a repeated or stale one is void. */
  lemma ReleaseChanges(g: Gate, permit: Permit, at: int)
    ensures AfterRelease(g, permit, at) != g <==> permit.device in g.active && g.active[permit.device] == permit.id
  {
    if permit.device in g.active && g.active[permit.device] == permit.id {
      assert permit.device !in AfterRelease(g, permit, at).active;
    }
  }

  /** Between two grants for a device lies an effective release of the first one's own permit: grants are
      exclusive, and no other release can end them. */
  lemma GrantsAreExclusive(calls: seq<Call>, i: nat, j: nat)
    requires i < j < |calls|
    requires Granted(calls, i) && Granted(calls, j) && calls[i].device == calls[j].device
    ensures exists k :: i < k < j && Freed(calls, k) && calls[k].permit == Permit(calls[i].id, calls[i].device)
  {
    FreedBetween(calls, i, j);
  }

  /** Some release between the two gave back exactly the permit that call `i` was granted. */
  ghost predicate FreedWithin(calls: seq<Call>, i: nat, n: nat)
    requires i < n <= |calls| && calls[i].Reserve?
  {
    exists k :: i < k < n && Freed(calls, k) && calls[k].permit == Permit(calls[i].id, calls[i].device)
  }

  lemma {:induction false} FreedBetween(calls: seq<Call>, i: nat, n: nat)
    requires i < n <= |calls| && Granted(calls, i)
    ensures var g := GateAfter(calls[..n]);
            (calls[i].device in g.active && g.active[calls[i].device] == calls[i].id) ||
            FreedWithin(calls, i, n)
    decreases n
  {
    var d, id := calls[i].device, calls[i].id;
    assert calls[..n][..n - 1] == calls[..n - 1];
    if n > i + 1 {
      FreedBetween(calls, i, n - 1);
      var before, last := GateAfter(calls[..n - 1]), calls[n - 1];
      if d in before.active && before.active[d] == id {
        if last.Release? {
          ReleaseChanges(before, last.permit, last.at);
          if last.permit == Permit(id, d) {
            assert Freed(calls, n - 1);
          }
        }
      }
    }
  }

  lemma {:induction false} CooldownHolds(calls: seq<Call>, k: nat, n: nat)
    requires OrderlyClock(calls) && k < n <= |calls| && Freed(calls, k)
    ensures var g, d := GateAfter(calls[..n]), calls[k].permit.device;
            (d in g.cooldowns && g.cooldowns[d] >= calls[k].at + SESSION_COOLDOWN) ||
            calls[n - 1].at >= calls[k].at + SESSION_COOLDOWN
    decreases n
  {
    assert calls[..n][..n - 1] == calls[..n - 1];
    ReleaseChanges(GateAfter(calls[..k]), calls[k].permit, calls[k].at);
    if n > k + 1 {
      CooldownHolds(calls, k, n - 1);
    }
  }

  /** Successive sessions of a device are at least ten seconds apart. */
  lemma SessionsAreTenSecondsApart(calls: seq<Call>, k: nat, j: nat)
    requires OrderlyClock(calls) && k < j < |calls|
    requires Freed(calls, k) && Granted(calls, j) && calls[j].device == calls[k].permit.device
    ensures calls[j].at >= calls[k].at + SESSION_COOLDOWN
  {
    CooldownHolds(calls, k, j);
  }

  /** A live permit was granted and has not been given back since. */
  lemma {:induction false} LivePermitWasGranted(calls: seq<Call>, n: nat, device: string) returns (i: nat)
    requires n <= |calls| && device in GateAfter(calls[..n]).active
    ensures i < n && Granted(calls, i) && calls[i].device == device
    ensures GateAfter(calls[..n]).active[device] == calls[i].id && !FreedWithin(calls, i, n)
  {
    if n > 0 {
      assert calls[..n][..n - 1] == calls[..n - 1];
      var before, last := GateAfter(calls[..n - 1]), calls[n - 1];
      if last.Reserve? && last.device == device && Refusal(before, device, last.at).None? {
        i := n - 1;
      } else {
        i := LivePermitWasGranted(calls, n - 1, device);
        if last.Release? {
          ReleaseChanges(before, last.permit, last.at);
        }
      }
    }
  }

  /** A cooldown comes from an effective release ten seconds before its end. */
  lemma {:induction false} CooldownWasSet(calls: seq<Call>, n: nat, device: string) returns (k: nat)
    requires n <= |calls| && device in GateAfter(calls[..n]).cooldowns
    ensures k < n && Freed(calls, k) && calls[k].permit.device == device
    ensures GateAfter(calls[..n]).cooldowns[device] == calls[k].at + 10
  {
    if n > 0 {
      assert calls[..n][..n - 1] == calls[..n - 1];
      var before, last := GateAfter(calls[..n - 1]), calls[n - 1];
      if last.Release? && last.permit.device == device && AfterRelease(before, last.permit, last.at) != before {
        ReleaseChanges(before, last.permit, last.at);
        k := n - 1;
      } else {
        k := CooldownWasSet(calls, n - 1, device);
      }
    }
  }

  /** Exactly when a session may start: every earlier permit of the device was given back, and ten seconds have passed
      since each time one was. */
  lemma GrantedExactly(calls: seq<Call>, j: nat)
    requires OrderlyClock(calls) && j < |calls| && calls[j].Reserve?
    ensures Granted(calls, j) <==>
            && (forall i :: 0 <= i < j && Granted(calls, i) && calls[i].device == calls[j].device ==>
                  FreedWithin(calls, i, j))
            && (forall k :: 0 <= k < j && Freed(calls, k) && calls[k].permit.device == calls[j].device ==>
                  calls[j].at >= calls[k].at + 10)
  {
    var g, d := GateAfter(calls[..j]), calls[j].device;
    if Granted(calls, j) {
      forall i | 0 <= i < j && Granted(calls, i) && calls[i].device == d ensures FreedWithin(calls, i, j) {
        GrantsAreExclusive(calls, i, j);
      }
      forall k | 0 <= k < j && Freed(calls, k) && calls[k].permit.device == d
        ensures calls[j].at >= calls[k].at + 10
      {
        SessionsAreTenSecondsApart(calls, k, j);
      }
    } else if d in g.active {
      var i := LivePermitWasGranted(calls, j, d);
    } else {
      var k := CooldownWasSet(calls, j, d);
    }
  }
}
