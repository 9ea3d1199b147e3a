/**
 Reconnect and rotation decisions of the push listener. The policy carries two numbers; the theorems
 say what they mean for the whole history of attempts.
 */
module Reconnect {
  import opened Wrappers

  const MIN_RETRY := 5
  const MAX_RETRY := 300
  const STABLE_UPTIME := 60.0
  const ROTATE_AFTER := 3

  datatype Ending = Reload | Reauth | Dropped | Idle | Rejected | Failed

  datatype Attempt = Attempt(ending: Ending, uptime: Option<real>)

  datatype Plan = Plan(delay: real, rotate: bool)

  datatype Policy = Policy(delay: nat, suspect: nat)

  const FRESH := Policy(MIN_RETRY, 0)

  predicate Stable(a: Attempt) {
    a.uptime.Some? && a.uptime.value >= STABLE_UPTIME
  }

  /** An ending that suggests stale credentials. */
  predicate Suspicious(a: Attempt) {
    a.ending.Rejected? || (a.ending.Dropped? && !Stable(a))
  }

  /** An ending that takes its turn in the backoff. */
  predicate BacksOff(a: Attempt) {
    !a.ending.Reload? && !a.ending.Reauth?
  }

  function Clamped(jitter: real): real {
    if jitter < 0.0 then 0.0 else if jitter > 1.0 then 1.0 else jitter
  }

  function Doubled(delay: nat): nat {
    if delay * 2 > MAX_RETRY then MAX_RETRY else delay * 2
  }

  class ReconnectPolicy {
    var delay: nat
    var suspect: nat

    constructor ()
      ensures Policy(delay, suspect) == FRESH
    {
      delay, suspect := MIN_RETRY, 0;
    }

    method Next(attempt: Attempt, jitter: real) returns (plan: Plan)
      modifies this
      ensures Policy(delay, suspect) == After(old(Policy(delay, suspect)), attempt)
      ensures plan == PlanOf(old(Policy(delay, suspect)), attempt, jitter)
    {
      var stable := attempt.uptime.Some? && attempt.uptime.value >= 60.0;
      if stable {
        delay, suspect := MIN_RETRY, 0;
      }
      match attempt.ending {
        case Reload => return Plan(0.0, false);
        case Reauth =>
          delay := MAX_RETRY;
          return Plan(MAX_RETRY as real, false);
        case Dropped =>
          if !stable {
            suspect := suspect + 1;
          }
        case Rejected => suspect := suspect + 1;
        case Idle =>
        case Failed =>
      }
      var rotate := suspect >= ROTATE_AFTER;
      if rotate {
        suspect := 0;
      }
      var base := delay;
      delay := if base * 2 > MAX_RETRY then MAX_RETRY else base * 2;
      var clamped := if jitter < 0.0 then 0.0 else if jitter > 1.0 then 1.0 else jitter;
      plan := Plan(base as real + base as real * (clamped / 4.0), rotate);
    }
  }

  function Settled(p: Policy, a: Attempt): Policy {
    if Stable(a) then FRESH else p
  }

  function Suspects(p: Policy, a: Attempt): nat {
    Settled(p, a).suspect + if Suspicious(a) then 1 else 0
  }

  function After(p: Policy, a: Attempt): Policy {
    if a.ending.Reload? then Settled(p, a)
    else if a.ending.Reauth? then Settled(p, a).(delay := MAX_RETRY)
    else Policy(Doubled(Settled(p, a).delay), if Suspects(p, a) >= ROTATE_AFTER then 0 else Suspects(p, a))
  }

  /** `base` lengthened by up to a quarter. */
  function Lengthened(base: nat, jitter: real): (r: real)
    ensures base as real <= r <= 1.25 * base as real
    ensures jitter <= 0.0 ==> r == base as real
  {
    QuarterMore(base as real, Clamped(jitter));
    base as real + base as real * (Clamped(jitter) / 4.0)
  }

  lemma QuarterMore(base: real, j: real)
    requires base >= 0.0 && 0.0 <= j <= 1.0
    ensures base <= base + base * (j / 4.0) <= 1.25 * base
    ensures j == 0.0 ==> base + base * (j / 4.0) == base
  {
    assert 0.0 <= j / 4.0 <= 0.25;
    assert base * (j / 4.0) <= base * 0.25;
  }

  function RotateOf(p: Policy, a: Attempt): bool {
    BacksOff(a) && Suspects(p, a) >= ROTATE_AFTER
  }

  function DelayOf(p: Policy, a: Attempt, jitter: real): real {
    if a.ending.Reload? then 0.0
    else if a.ending.Reauth? then MAX_RETRY as real
    else Lengthened(Settled(p, a).delay, jitter)
  }

  function PlanOf(p: Policy, a: Attempt, jitter: real): Plan {
    Plan(DelayOf(p, a, jitter), RotateOf(p, a))
  }

  function PolicyAfter(h: seq<Attempt>): Policy {
    if h == [] then FRESH else After(PolicyAfter(h[..|h| - 1]), h[|h| - 1])
  }

  // ---------------------------------------------------- the history, read directly

  /** The attempts since the last stable one, which is included. */
  function SinceStable(h: seq<Attempt>): seq<Attempt> {
    if h == [] then []
    else if Stable(h[|h| - 1]) then [h[|h| - 1]]
    else SinceStable(h[..|h| - 1]) + [h[|h| - 1]]
  }

  function Count(h: seq<Attempt>, p: Attempt -> bool): nat {
    if h == [] then 0 else Count(h[..|h| - 1], p) + if p(h[|h| - 1]) then 1 else 0
  }

  predicate HadReauth(h: seq<Attempt>) {
    exists i :: 0 <= i < |h| && h[i].ending.Reauth?
  }

  function Pow2(k: nat): (r: nat)
    ensures r >= 1
  {
    if k == 0 then 1 else 2 * Pow2(k - 1)
  }

  /** 5, 10, 20, ... capped at five minutes; five minutes at once after a rejected session. */
  function Backoff(segment: seq<Attempt>): nat {
    if HadReauth(segment) then MAX_RETRY
    else
      var raw := MIN_RETRY * Pow2(Count(segment, BacksOff));
      if raw > MAX_RETRY then MAX_RETRY else raw
  }

  function Rotations(h: seq<Attempt>): nat {
    if h == [] then 0
    else Rotations(h[..|h| - 1]) + if RotateOf(PolicyAfter(h[..|h| - 1]), h[|h| - 1]) then 1 else 0
  }

  lemma CountSnoc(h: seq<Attempt>, a: Attempt, p: Attempt -> bool)
    ensures Count(h + [a], p) == Count(h, p) + if p(a) then 1 else 0
  {
    assert (h + [a])[..|h|] == h;
  }

  lemma SegmentStep(h: seq<Attempt>, a: Attempt)
    ensures var before, after := (if Stable(a) then [] else SinceStable(h)), SinceStable(h + [a]);
            && after == before + [a]
            && Count(after, BacksOff) == Count(before, BacksOff) + (if BacksOff(a) then 1 else 0)
            && Count(after, Suspicious) == Count(before, Suspicious) + (if Suspicious(a) then 1 else 0)
            && (HadReauth(after) <==> HadReauth(before) || a.ending.Reauth?)
  {
    assert (h + [a])[..|h|] == h;
    var before, after := if Stable(a) then [] else SinceStable(h), SinceStable(h + [a]);
    assert after == before + [a];
    CountSnoc(before, a, BacksOff);
    CountSnoc(before, a, Suspicious);
    if i :| 0 <= i < |before| && before[i].ending.Reauth? {
      assert after[i].ending.Reauth?;
    }
    if a.ending.Reauth? {
      assert after[|before|].ending.Reauth?;
    }
  }

  lemma DoublingCaps(k: nat)
    ensures var raw := MIN_RETRY * Pow2(k);
            Doubled(if raw > MAX_RETRY then MAX_RETRY else raw)
            == if 2 * raw > MAX_RETRY then MAX_RETRY else 2 * raw
  {
  }

  /** The two numbers are closed forms of the history: the backoff of the attempts since the last stable
      one, and their suspicious endings modulo three. */
  lemma {:induction false} PolicyIsClosedForm(h: seq<Attempt>)
    ensures var segment := SinceStable(h);
            PolicyAfter(h) == Policy(Backoff(segment), Count(segment, Suspicious) % ROTATE_AFTER)
  {
    if h != [] {
      var front, a := h[..|h| - 1], h[|h| - 1];
      assert h == front + [a];
      PolicyIsClosedForm(front);
      SegmentStep(front, a);
      var before := if Stable(a) then [] else SinceStable(front);
      assert Settled(PolicyAfter(front), a) == Policy(Backoff(before), Count(before, Suspicious) % ROTATE_AFTER);
      DoublingCaps(Count(before, BacksOff));
    }
  }

  /** The policy as it stands when attempt `a` is judged. */
  lemma SettledForm(h: seq<Attempt>, a: Attempt)
    ensures var before := if Stable(a) then [] else SinceStable(h);
            Settled(PolicyAfter(h), a) == Policy(Backoff(before), Count(before, Suspicious) % ROTATE_AFTER)
  {
    PolicyIsClosedForm(h);
  }

  /** A rotation is planned exactly at every third suspicious ending since the last stable attempt. */
  lemma RotatesAtEveryThirdSuspect(h: seq<Attempt>, a: Attempt)
    ensures RotateOf(PolicyAfter(h), a) <==>
            Suspect(a) && Count(SinceStable(h + [a]), Suspect) % 3 == 0
  {
    var n, after := SuspectsSoFar(h, a);
    ThirdSuspect(PolicyAfter(h), a, n, after);
    SameCount(SinceStable(h + [a]));
  }

  /** The server rejected the session, or dropped it within a minute. */
  predicate Suspect(a: Attempt) {
    match a.ending
    case Rejected => true
    case Dropped => a.uptime.None? || a.uptime.value < 60.0
    case _ => false
  }

  lemma {:induction false} SameCount(h: seq<Attempt>)
    ensures Count(h, Suspect) == Count(h, Suspicious)
  {
    if h != [] {
      SameCount(h[..|h| - 1]);
    }
  }

  lemma SuspectsSoFar(h: seq<Attempt>, a: Attempt) returns (n: nat, after: nat)
    ensures Settled(PolicyAfter(h), a).suspect == n % ROTATE_AFTER
    ensures after == Count(SinceStable(h + [a]), Suspicious) == n + if Suspicious(a) then 1 else 0
  {
    SettledForm(h, a);
    SegmentStep(h, a);
    n := Count(if Stable(a) then [] else SinceStable(h), Suspicious);
    after := Count(SinceStable(h + [a]), Suspicious);
  }

  lemma ThirdSuspect(p: Policy, a: Attempt, n: nat, after: nat)
    requires Settled(p, a).suspect == n % ROTATE_AFTER && after == n + if Suspicious(a) then 1 else 0
    ensures RotateOf(p, a) <==> Suspicious(a) && after % ROTATE_AFTER == 0
  {
  }

  lemma BackoffRange(segment: seq<Attempt>)
    ensures MIN_RETRY <= Backoff(segment) <= MAX_RETRY
  {
  }

  /** The delay before jitter follows the closed form; jitter lengthens it by at most a quarter, so it
      never exceeds 375 seconds. A reload reconnects at once. */
  lemma DelayFollowsTheHistory(h: seq<Attempt>, a: Attempt, jitter: real)
    ensures var delay, base := DelayOf(PolicyAfter(h), a, jitter), Backoff(if Stable(a) then [] else SinceStable(h));
            && (BacksOff(a) ==> base as real <= delay <= 1.25 * base as real)
            && (BacksOff(a) && jitter <= 0.0 ==> delay == base as real)
            && (a.ending.Reauth? ==> delay == 300.0)
            && (a.ending.Reload? ==> delay == 0.0)
            && delay <= 375.0
    ensures var segment := if a.uptime.Some? && a.uptime.value >= 60.0 then [] else SinceStable(h);
            var raw := 5 * Pow2(Count(segment, BacksOff));
            Backoff(if Stable(a) then [] else SinceStable(h)) ==
              if (exists i :: 0 <= i < |segment| && segment[i].ending.Reauth?) || raw > 300 then 300 else raw
  {
    SettledForm(h, a);
    BackoffRange(if Stable(a) then [] else SinceStable(h));
  }

  /** Three suspicious endings pay for each rotation. */
  lemma {:induction false} RotationsArePaidFor(h: seq<Attempt>)
    ensures 3 * Rotations(h) + PolicyAfter(h).suspect <= Count(h, Suspicious)
  {
    if h != [] {
      var front := h[..|h| - 1];
      assert h == front + [h[|h| - 1]];
      RotationsArePaidFor(front);
      PolicyIsClosedForm(front);
    }
  }
}
