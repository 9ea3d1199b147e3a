/**
 Whole runs of the watchdog. `World` keeps the bounded memory next to the full record of the run, so
 that what the memory answers can be compared with what the record says.

 Premises appear by name where they are needed. Verdicts need a clock that never falls more than 3510 seconds behind
 a time it showed before, counting each ding once needs 3600 seconds and one time per event id; both bounds are exact.
 Health, and that no ding is forgotten unjudged, need nothing.
 */
module WatchdogRuns {
  import opened Wrappers
  import opened Watchdog

  /** How far the clock may step back: a push pruned at the retention is still out of the matching window of every
      ding that can be read. */
  const TOLERANCE := RETENTION - OBSERVE_MAX_AGE - MATCH_WINDOW

  datatype Step = Push(at: int) | Observe(page: seq<HistoryDing>, now: int)

  datatype World = World(
    m: Memory,
    pushLog: seq<int>,            // every push ding ever recorded
    evicted: seq<int>,            // those dropped by the 256-entry limit
    clock: Option<int>,           // newest time of an observation
    counted: multiset<string>,    // every id reported as missed, with multiplicity
    misses: set<(string, int)>,   // the same ids with the times they were judged by
    total: nat)                   // sum of the returned counts

  const START := World(EMPTY, [], [], None, multiset{}, {}, 0)

  ghost function Apply(w: World, step: Step): World {
    match step
    case Push(at) =>
      var queue := w.m.pushDings + [at];
      w.(m := AfterPush(w.m, at),
         pushLog := w.pushLog + [at],
         evicted := w.evicted + queue[..|queue| - |KeepNewest(queue)|])
    case Observe(page, now) =>
      var missed := Missed(w.m, page, now);
      var h := Remember(w.m.history, page, now);
      w.(m := AfterObserve(w.m, page, now),
         clock := MaxOption(w.clock, now),
         counted := w.counted + multiset(missed),
         misses := w.misses + set id | id in missed :: (id, h[id].at),
         total := w.total + |missed|)
  }

  ghost function Run(steps: seq<Step>): World {
    if steps == [] then START else Apply(Run(steps[..|steps| - 1]), steps[|steps| - 1])
  }

  /** No observation is more than `d` seconds behind an earlier one. */
  ghost predicate StepsBackAtMost(steps: seq<Step>, d: int) {
    forall i, j :: 0 <= i < j < |steps| && steps[i].Observe? && steps[j].Observe? ==> steps[i].now - d <= steps[j].now
  }

  ghost predicate ClockSteady(steps: seq<Step>) {
    StepsBackAtMost(steps, TOLERANCE)
  }

  ghost predicate OneTimePerId(steps: seq<Step>, time: string -> int) {
    forall i, k :: 0 <= i < |steps| && steps[i].Observe? && 0 <= k < |steps[i].page| ==>
      steps[i].page[k].occurredAt == time(steps[i].page[k].eventId)
  }

  // ------------------------------------------------------- what every step keeps

  /** Each recorded push is still queued, or was evicted, or is older than anything left to judge. */
  ghost predicate PushesAccounted(w: World) {
    && (forall p :: p in w.pushLog ==>
          p in w.m.pushDings || p in w.evicted || (w.clock.Some? && p < w.clock.value - RETENTION))
    && (forall p :: p in w.m.pushDings || p in w.evicted ==> p in w.pushLog)
  }

  /** An unjudged ding is recent: judging came before it could age. */
  ghost predicate EntryOk(e: Entry, clock: int) {
    && e.seen - OBSERVE_MAX_AGE <= e.at
    && e.seen <= clock
    && (!e.judged ==> clock - RETENTION + MATCH_WINDOW <= e.at)
  }

  ghost predicate HistoryOk(w: World) {
    forall id :: id in w.m.history ==> w.clock.Some? && EntryOk(w.m.history[id], w.clock.value)
  }

  /** Both running maxima are those of the full record. */
  ghost predicate MaximaOk(w: World) {
    && (w.m.newestPush.None? <==> w.pushLog == [])
    && (w.m.newestPush.Some? ==>
          w.m.newestPush.value in w.pushLog && forall p :: p in w.pushLog ==> p <= w.m.newestPush.value)
    && (w.m.lastMissed.None? <==> w.misses == {})
    && (w.m.lastMissed.Some? ==>
          && (exists x :: x in w.misses && x.1 == w.m.lastMissed.value)
          && (forall x :: x in w.misses ==> x.1 <= w.m.lastMissed.value))
  }

  /** A counted id is remembered as judged, or too old ever to be remembered again. */
  ghost predicate CountedOnce(w: World, time: string -> int) {
    && (forall id :: id in w.m.history ==> w.m.history[id].at == time(id))
    && (forall id :: w.counted[id] <= 1)
    && (forall id :: id in w.counted ==>
          if id in w.m.history then w.m.history[id].judged
          else w.clock.Some? && time(id) < w.clock.value - RETENTION)
    && |w.counted| == w.total
  }

  lemma {:induction false} RememberKeeps(h: map<string, Entry>, page: seq<HistoryDing>, now: int)
    ensures h.Keys <= Remember(h, page, now).Keys
  {
    if page != [] {
      RememberKeeps(h, page[..|page| - 1], now);
    }
  }

  lemma {:induction false} RememberedEntries(h: map<string, Entry>, page: seq<HistoryDing>, now: int, id: string)
    requires id in Remember(h, page, now)
    ensures var e := Remember(h, page, now)[id];
            if id in h then e == h[id]
            else e.seen == now && !e.judged && e.at >= now - OBSERVE_MAX_AGE && HistoryDing(id, e.at) in page
  {
    if page != [] {
      var front, last := page[..|page| - 1], page[|page| - 1];
      assert page == front + [last];
      var before := Remember(h, front, now);
      assert Remember(h, page, now) == RememberOne(before, last, now);
      if id in before {
        RememberedEntries(h, front, now, id);
      } else {
        RememberKeeps(h, front, now);
        assert id == last.eventId && last in page;
      }
    }
  }

  /** The bound that makes pruning harmless: what is judged at `now` is newer than every pruned push. */
  lemma DueIsRecent(w: World, page: seq<HistoryDing>, now: int, id: string)
    requires HistoryOk(w) && (w.clock.Some? ==> w.clock.value - TOLERANCE <= now)
    requires id in Remember(w.m.history, page, now)
    requires !Remember(w.m.history, page, now)[id].judged
    ensures w.clock.Some? ==>
      w.clock.value - RETENTION + MATCH_WINDOW <= Remember(w.m.history, page, now)[id].at
  {
    RememberedEntries(w.m.history, page, now, id);
  }

  lemma PushKeeps(w: World, at: int)
    requires PushesAccounted(w)
    ensures PushesAccounted(Apply(w, Push(at)))
  {
    var queue := w.m.pushDings + [at];
    var kept := KeepNewest(queue);
    var v := Apply(w, Push(at));
    assert queue == queue[..|queue| - |kept|] + kept;
    assert forall p :: p in queue <==> p in w.m.pushDings || p == at;
    assert forall p :: p in queue <==> p in queue[..|queue| - |kept|] || p in kept;
    assert forall p :: p in v.pushLog <==> p in w.pushLog || p == at;
    assert forall p :: p in v.evicted <==> p in w.evicted || p in queue[..|queue| - |kept|];
  }

  lemma PushKeepsMaxima(w: World, at: int)
    requires MaximaOk(w)
    ensures MaximaOk(Apply(w, Push(at)))
  {
    var v := Apply(w, Push(at));
    assert forall p :: p in v.pushLog <==> p in w.pushLog || p == at;
  }

  lemma ObserveKeepsPushes(w: World, page: seq<HistoryDing>, now: int)
    requires PushesAccounted(w) && HistoryOk(w) && (w.clock.Some? ==> w.clock.value - TOLERANCE <= now)
    ensures var v := Apply(w, Observe(page, now)); PushesAccounted(v) && HistoryOk(v)
  {
    var v := Apply(w, Observe(page, now));
    var h := Remember(w.m.history, page, now);
    forall id | id in v.m.history
      ensures EntryOk(v.m.history[id], v.clock.value)
    {
      RememberedEntries(w.m.history, page, now, id);
      assert v.m.history[id].at == h[id].at && v.m.history[id].seen == h[id].seen;
    }
  }

  lemma ObserveKeepsMaxima(w: World, page: seq<HistoryDing>, now: int)
    requires MaximaOk(w)
    ensures MaximaOk(Apply(w, Observe(page, now)))
  {
    var v := Apply(w, Observe(page, now));
    var missed := Missed(w.m, page, now);
    var h := Remember(w.m.history, page, now);
    var added := set id | id in missed :: (id, h[id].at);
    assert v.m.lastMissed == Newest(w.m.lastMissed, h, missed);
    assert forall id :: id in missed ==> (id, h[id].at) in added;
    if missed == {} {
      assert added == {};
    } else {
      var id :| id in missed;
      assert (id, h[id].at) in v.misses;
      if v.m.lastMissed == w.m.lastMissed {
        var x :| x in w.misses && x.1 == w.m.lastMissed.value;
        assert x in v.misses;
      } else {
        var top :| top in missed && v.m.lastMissed == Some(h[top].at);
        assert (top, h[top].at) in v.misses;
      }
    }
  }

  lemma ObserveKeepsCounts(w: World, page: seq<HistoryDing>, now: int, time: string -> int)
    requires CountedOnce(w, time) && (w.clock.Some? ==> w.clock.value - OBSERVE_MAX_AGE <= now)
    requires forall k :: 0 <= k < |page| ==> page[k].occurredAt == time(page[k].eventId)
    ensures CountedOnce(Apply(w, Observe(page, now)), time)
  {
    var v := Apply(w, Observe(page, now));
    var missed := Missed(w.m, page, now);
    var h := Remember(w.m.history, page, now);
    RememberKeeps(w.m.history, page, now);
    forall id | id in h
      ensures h[id].at == time(id)
      ensures id in w.counted ==> h[id].judged
    {
      RememberedEntries(w.m.history, page, now, id);
    }
    CountsGrow(w, v, missed);
    assert forall id :: id in missed && id in v.m.history ==> v.m.history[id].judged;
  }

  lemma CountsGrow(w: World, v: World, missed: set<string>)
    requires (forall id :: w.counted[id] <= 1) && (forall id :: id in missed ==> id !in w.counted)
    requires v.counted == w.counted + multiset(missed) && |w.counted| == w.total && v.total == w.total + |missed|
    ensures (forall id :: v.counted[id] <= 1) && |v.counted| == v.total
    ensures forall id :: id in v.counted ==> id in w.counted || id in missed
  {
    assert forall id :: v.counted[id] == w.counted[id] + if id in missed then 1 else 0;
  }

  /** The clock field is the newest time of an observation so far. */
  ghost predicate ClockOk(steps: seq<Step>, clock: Option<int>) {
    && (clock.Some? ==> exists i :: 0 <= i < |steps| && steps[i].Observe? && steps[i].now == clock.value)
    && (forall i :: 0 <= i < |steps| && steps[i].Observe? ==> clock.Some? && steps[i].now <= clock.value)
  }

  lemma ClockStep(steps: seq<Step>, clock: Option<int>, d: int)
    requires steps != [] && StepsBackAtMost(steps, d) && ClockOk(steps[..|steps| - 1], clock)
    ensures var last := steps[|steps| - 1];
            && StepsBackAtMost(steps[..|steps| - 1], d)
            && (last.Push? ==> ClockOk(steps, clock))
            && (last.Observe? ==>
                  (clock.Some? ==> clock.value - d <= last.now) && ClockOk(steps, MaxOption(clock, last.now)))
  {
    var front, last := steps[..|steps| - 1], steps[|steps| - 1];
    if clock.Some? {
      var i :| 0 <= i < |front| && front[i].Observe? && front[i].now == clock.value;
      assert steps[i].Observe? && steps[i].now == clock.value;
    }
    if last.Observe? {
      assert steps[|steps| - 1].Observe? && steps[|steps| - 1].now == last.now;
    }
  }

  lemma {:induction false} RunKeeps(steps: seq<Step>)
    requires ClockSteady(steps)
    ensures var w := Run(steps); PushesAccounted(w) && HistoryOk(w) && ClockOk(steps, w.clock)
  {
    if steps != [] {
      var front, last := steps[..|steps| - 1], steps[|steps| - 1];
      RunKeeps(front);
      var w := Run(front);
      ClockStep(steps, w.clock, TOLERANCE);
      match last
      case Push(at) => PushKeeps(w, at);
      case Observe(page, now) =>
        ObserveKeepsPushes(w, page, now);
    }
  }

  lemma {:induction false} RunCounts(steps: seq<Step>, time: string -> int)
    requires StepsBackAtMost(steps, OBSERVE_MAX_AGE) && OneTimePerId(steps, time)
    ensures CountedOnce(Run(steps), time) && ClockOk(steps, Run(steps).clock)
  {
    if steps != [] {
      var front, last := steps[..|steps| - 1], steps[|steps| - 1];
      assert StepsBackAtMost(front, OBSERVE_MAX_AGE);
      RunCounts(front, time);
      ClockStep(steps, Run(front).clock, OBSERVE_MAX_AGE);
      if last.Observe? {
        ObserveKeepsCounts(Run(front), last.page, last.now, time);
      }
    }
  }

  /** Every remembered ding was at most an hour old when it was first read. */
  ghost predicate SeenOk(w: World) {
    forall id :: id in w.m.history ==> w.m.history[id].seen - OBSERVE_MAX_AGE <= w.m.history[id].at
  }

  lemma ObserveKeepsSeen(w: World, page: seq<HistoryDing>, now: int)
    requires SeenOk(w)
    ensures SeenOk(Apply(w, Observe(page, now)))
  {
    var v := Apply(w, Observe(page, now));
    var h := Remember(w.m.history, page, now);
    forall id | id in v.m.history
      ensures v.m.history[id].seen - OBSERVE_MAX_AGE <= v.m.history[id].at
    {
      RememberedEntries(w.m.history, page, now, id);
      assert v.m.history[id].at == h[id].at && v.m.history[id].seen == h[id].seen;
    }
  }

  /** What holds over every run, whatever the clock does. */
  lemma {:induction false} RunKeepsAlways(steps: seq<Step>)
    ensures MaximaOk(Run(steps)) && SeenOk(Run(steps))
  {
    if steps != [] {
      var front, last := steps[..|steps| - 1], steps[|steps| - 1];
      RunKeepsAlways(front);
      match last
      case Push(at) => PushKeepsMaxima(Run(front), at);
      case Observe(page, now) =>
        ObserveKeepsMaxima(Run(front), page, now);
        ObserveKeepsSeen(Run(front), page, now);
    }
  }

  lemma RunSnoc(steps: seq<Step>, step: Step)
    ensures Run(steps + [step]) == Apply(Run(steps), step)
  {
    assert (steps + [step])[..|steps|] == steps;
  }

  lemma PrefixClock(steps: seq<Step>, step: Step)
    requires ClockSteady(steps + [step])
    ensures ClockSteady(steps)
    ensures step.Observe? && Run(steps).clock.Some? ==> Run(steps).clock.value - TOLERANCE <= step.now
  {
    var all := steps + [step];
    assert all[..|all| - 1] == steps;
    forall i, j | 0 <= i < j < |steps| && steps[i].Observe? && steps[j].Observe?
      ensures steps[i].now - TOLERANCE <= steps[j].now
    {
      assert all[i] == steps[i] && all[j] == steps[j];
    }
    RunKeeps(steps);
    ClockStep(all, Run(steps).clock, TOLERANCE);
  }

  // ----------------------------------------------------------------- theorems

  /** Some push is within 90 seconds. */
  ghost predicate Near(pushes: seq<int>, at: int) {
    exists p :: p in pushes && at - 90 <= p <= at + 90
  }

  lemma NearIsDelivered(pushes: seq<int>, at: int)
    ensures Near(pushes, at) <==> Delivered(pushes, at)
  {
    if p :| p in pushes && at - 90 <= p <= at + 90 {
      assert Matches(p, at);
    }
  }

  /** Pruning by age never changes a verdict: what the queue answers about a ding still to be judged
      is what the full push log answers, except for pushes lost to the 256-entry limit. */
  lemma PruningNeverChangesAVerdict(steps: seq<Step>, page: seq<HistoryDing>, now: int, id: string)
    requires ClockSteady(steps + [Observe(page, now)])
    requires id in Remember(Run(steps).m.history, page, now)
    requires !Remember(Run(steps).m.history, page, now)[id].judged
    ensures var w, at := Run(steps), Remember(Run(steps).m.history, page, now)[id].at;
            Near(w.pushLog, at) <==> Near(w.m.pushDings, at) || Near(w.evicted, at)
  {
    PrefixClock(steps, Observe(page, now));
    RunKeeps(steps);
    var w := Run(steps);
    DueIsRecent(w, page, now, id);
  }

  /** A watchdog with an unbounded push log, in plain arithmetic: no limit and no pruning of pushes. */
  ghost function Reference(steps: seq<Step>): (Memory, nat) {
    if steps == [] then (EMPTY, 0) else ReferenceStep(Reference(steps[..|steps| - 1]), steps[|steps| - 1])
  }

  ghost function ReferenceStep(r: (Memory, nat), step: Step): (Memory, nat) {
    match step
    case Push(at) =>
      var newest := if r.0.newestPush.Some? && r.0.newestPush.value > at then r.0.newestPush else Some(at);
      (r.0.(pushDings := r.0.pushDings + [at], newestPush := newest), r.1)
    case Observe(page, now) =>
      var h := Remember(r.0.history, page, now);
      var proven := ProvenPlainly(r.0.newestPush, r.0.lastMissed);
      var missed := Unmatched(h, proven, r.0.pushDings, now);
      (Memory(r.0.pushDings, r.0.newestPush, ReferenceHistory(h, proven, now), Newest(r.0.lastMissed, h, missed)),
       r.1 + |missed|)
  }

  /** What waited long enough is judged, and what is older than two hours is forgotten. */
  ghost function ReferenceHistory(h: map<string, Entry>, proven: bool, now: int): map<string, Entry> {
    map id | id in h && h[id].at >= now - 7200 ::
      Entry(h[id].at, h[id].seen,
            h[id].judged || if proven then now >= h[id].at + 120 else now >= h[id].seen + 15)
  }

  /** The bounded memory with the full push log put back, and the count so far. */
  ghost function Shadow(w: World): (Memory, nat) {
    (w.m.(pushDings := w.pushLog), w.total)
  }

  lemma PushRefines(w: World, at: int)
    ensures ReferenceStep(Shadow(w), Push(at)) == Shadow(Apply(w, Push(at)))
  {
  }

  lemma ObserveRefines(w: World, page: seq<HistoryDing>, now: int)
    requires AnswerAlike(Remember(w.m.history, page, now), w.pushLog, w.m.pushDings)
    ensures ReferenceStep(Shadow(w), Observe(page, now)) == Shadow(Apply(w, Observe(page, now)))
  {
    SameVerdicts(w.m, w.pushLog, page, now);
    ObservePlainly(w.m.(pushDings := w.pushLog), w.total, page, now);
  }

  /** The plain observation is the one of the watchdog, but for the pruning of pushes. */
  lemma ObservePlainly(m: Memory, total: nat, page: seq<HistoryDing>, now: int)
    ensures ReferenceStep((m, total), Observe(page, now))
         == (AfterObserve(m, page, now).(pushDings := m.pushDings), total + |Missed(m, page, now)|)
  {
    var h, proven := Remember(m.history, page, now), PushProven(m);
    assert proven == ProvenPlainly(m.newestPush, m.lastMissed);
    MissedPlainly(h, proven, m.pushDings, now);
    var judged := Judged(h, proven, now);
    assert AfterObserve(m, page, now).history == ReferenceHistory(h, proven, now);
  }

  /** Two push queues answer alike about every ding still to be judged. */
  ghost predicate AnswerAlike(h: map<string, Entry>, a: seq<int>, b: seq<int>) {
    forall id :: id in h && !h[id].judged ==> (Near(a, h[id].at) <==> Near(b, h[id].at))
  }

  lemma SameVerdicts(m: Memory, pushes: seq<int>, page: seq<HistoryDing>, now: int)
    requires AnswerAlike(Remember(m.history, page, now), pushes, m.pushDings)
    ensures Missed(m.(pushDings := pushes), page, now) == Missed(m, page, now)
    ensures AfterObserve(m.(pushDings := pushes), page, now).(pushDings := pushes)
         == AfterObserve(m, page, now).(pushDings := pushes)
  {
    var h, proven := Remember(m.history, page, now), PushProven(m);
    assert PushProven(m.(pushDings := pushes)) == proven;
    forall id | id in h && !h[id].judged
      ensures Delivered(pushes, h[id].at) <==> Delivered(m.pushDings, h[id].at)
    {
      NearIsDelivered(pushes, h[id].at);
      NearIsDelivered(m.pushDings, h[id].at);
    }
    assert MissedOf(h, proven, pushes, now) == MissedOf(h, proven, m.pushDings, now);
  }

  /** The bounded watchdog refines the unbounded one: same counts, same history, same health, as long
      as no push fell out of the 256-entry queue. */
  lemma {:induction false} BoundedRefinesUnbounded(steps: seq<Step>)
    requires ClockSteady(steps) && Run(steps).evicted == []
    ensures Reference(steps) == Shadow(Run(steps))
  {
    if steps != [] {
      var front, last := steps[..|steps| - 1], steps[|steps| - 1];
      FrontIsClean(steps, front, last);
      BoundedRefinesUnbounded(front);
      RefinesStep(front, last);
    }
  }

  lemma FrontIsClean(steps: seq<Step>, front: seq<Step>, last: Step)
    requires steps != [] && front == steps[..|steps| - 1] && last == steps[|steps| - 1]
    requires ClockSteady(steps) && Run(steps).evicted == []
    ensures steps == front + [last] && ClockSteady(front) && Run(front).evicted == []
  {
    assert steps == front + [last];
    PrefixClock(front, last);
    NoEvictionBefore(Run(front), last);
  }

  lemma NoEvictionBefore(w: World, step: Step)
    requires Apply(w, step).evicted == []
    ensures w.evicted == []
  {
  }

  lemma RefinesStep(front: seq<Step>, last: Step)
    requires ClockSteady(front + [last]) && Run(front).evicted == []
    ensures ReferenceStep(Shadow(Run(front)), last) == Shadow(Apply(Run(front), last))
  {
    match last
    case Push(at) => PushRefines(Run(front), at);
    case Observe(page, now) =>
      VerdictsAgree(front, page, now);
      ObserveRefines(Run(front), page, now);
  }

  lemma VerdictsAgree(steps: seq<Step>, page: seq<HistoryDing>, now: int)
    requires ClockSteady(steps + [Observe(page, now)]) && Run(steps).evicted == []
    ensures AnswerAlike(Remember(Run(steps).m.history, page, now), Run(steps).pushLog, Run(steps).m.pushDings)
  {
    var h := Remember(Run(steps).m.history, page, now);
    forall id | id in h && !h[id].judged
      ensures Near(Run(steps).pushLog, h[id].at) <==> Near(Run(steps).m.pushDings, h[id].at)
    {
      PruningNeverChangesAVerdict(steps, page, now, id);
    }
  }

  /** Over any run each history ding is counted at most once, and the returned counts add up to the
      number of distinct dings missed. */
  lemma EachMissCountedOnce(steps: seq<Step>, time: string -> int)
    requires StepsBackAtMost(steps, OBSERVE_MAX_AGE) && OneTimePerId(steps, time)
    ensures forall id :: Run(steps).counted[id] <= 1
    ensures Run(steps).total == |set id | id in Run(steps).counted|
  {
    RunCounts(steps, time);
    var c := Run(steps).counted;
    var ids := set id | id in c;
    assert c == multiset(ids);
  }

  /** Health is a statement about everything that happened, not about the bounded memory: degraded
      exactly while some miss of the last day is newer than every push ding ever received. */
  lemma HealthSpeaksForTheFullLog(steps: seq<Step>, now: int)
    ensures var w := Run(steps);
            Health(w.m, now).pushDegraded <==>
            exists x :: x in w.misses && now - x.1 <= 86400 && forall p :: p in w.pushLog ==> p < x.1
  {
    RunKeepsAlways(steps);
    var w := Run(steps);
    if Health(w.m, now).pushDegraded {
      var x :| x in w.misses && x.1 == w.m.lastMissed.value;
      assert forall p :: p in w.pushLog ==> p < x.1;
    }
  }

  /** A ding is judged exactly when its grace period is over, two minutes after it rang or fifteen seconds after it was
      read while push is unproven; it is forgotten two hours after it rang, and never before it was judged. */
  lemma NoDingForgottenUnjudged(steps: seq<Step>, page: seq<HistoryDing>, now: int, id: string)
    requires id in Remember(Run(steps).m.history, page, now)
    ensures var h, after := Remember(Run(steps).m.history, page, now), Run(steps + [Observe(page, now)]).m.history;
            var m := Run(steps).m;
            var waited := if ProvenPlainly(m.newestPush, m.lastMissed) then now >= h[id].at + 120
                          else now >= h[id].seen + 15;
            && (id in after ==> after[id].at == h[id].at && after[id].seen == h[id].seen)
            && (id in after ==> (after[id].judged <==> h[id].judged || waited))
            && (id !in after ==> h[id].judged || waited)
            && (id in after <==> h[id].at >= now - 7200)
  {
    RunSnoc(steps, Observe(page, now));
    RunKeepsAlways(steps);
    RememberedEntries(Run(steps).m.history, page, now, id);
  }

  /** An observation after this run judges every ding as the full push log would. */
  ghost predicate Faithful(w: World, page: seq<HistoryDing>, now: int) {
    var h := Remember(w.m.history, page, now);
    forall id :: id in h && !h[id].judged ==>
      (Near(w.pushLog, h[id].at) <==> Near(w.m.pushDings, h[id].at) || Near(w.evicted, h[id].at))
  }

  /** The bound is exact: every run whose clock steps back by at most `d` is judged faithfully if and only if `d` is
      at most 3510 seconds. */
  lemma ToleranceIsExact(d: nat)
    ensures (forall steps, page, now ::
               StepsBackAtMost(steps + [Observe(page, now)], d) ==> Faithful(Run(steps), page, now))
            <==> d <= TOLERANCE
  {
    if d <= TOLERANCE {
      forall steps, page, now | StepsBackAtMost(steps + [Observe(page, now)], d)
        ensures Faithful(Run(steps), page, now)
      {
        SteadyIsFaithful(steps, page, now);
      }
    } else {
      var steps, page, now := LostAtTheBound(d);
    }
  }

  lemma SteadyIsFaithful(steps: seq<Step>, page: seq<HistoryDing>, now: int)
    requires ClockSteady(steps + [Observe(page, now)])
    ensures Faithful(Run(steps), page, now)
  {
    var h := Remember(Run(steps).m.history, page, now);
    forall id | id in h && !h[id].judged
      ensures var w := Run(steps);
              Near(w.pushLog, h[id].at) <==> Near(w.m.pushDings, h[id].at) || Near(w.evicted, h[id].at)
    {
      PruningNeverChangesAVerdict(steps, page, now, id);
    }
  }

  /** One second more and a push can be pruned by an observation ahead of the clock, 90 seconds before a ding that is
      still young enough to be read afterwards. */
  lemma LostAtTheBound(d: nat) returns (steps: seq<Step>, page: seq<HistoryDing>, now: int)
    requires d > TOLERANCE
    ensures StepsBackAtMost(steps + [Observe(page, now)], d) && !Faithful(Run(steps), page, now)
    ensures |page| == 1 && Missed(Run(steps).m, page, now) == {page[0].eventId}
    ensures Near(Run(steps).pushLog, page[0].occurredAt)
  {
    page, now := [HistoryDing("ding", 0)], OBSERVE_MAX_AGE;
    steps := PrunedAhead(-MATCH_WINDOW, now + d, []);
    MissedThough(Run(steps), page, "ding", 0, now);
  }

  lemma PrunedAhead(at: int, ahead: int, nothing: seq<HistoryDing>) returns (steps: seq<Step>)
    requires at < ahead - RETENTION && |nothing| == 0
    ensures steps == [Push(at), Observe(nothing, ahead)] && Quiet(Run(steps), [], map[], at)
  {
    var w1 := FirstPush(START, at);
    var w2 := PrunedAway(w1, nothing, at, ahead);
    steps := TwoSteps(Push(at), Observe(nothing, ahead));
  }

  lemma TwoSteps(a: Step, b: Step) returns (steps: seq<Step>)
    ensures steps == [a, b] && Run(steps) == Apply(Apply(START, a), b)
  {
    steps := [a, b];
    assert [] + [a] == [a] && [a] + [b] == steps;
    RunSnoc([], a);
    RunSnoc([a], b);
  }

  lemma MissedThough(w: World, page: seq<HistoryDing>, id: string, at: int, now: int)
    requires page == [HistoryDing(id, at)] && at == now - OBSERVE_MAX_AGE && Quiet(w, [], map[], at - MATCH_WINDOW)
    ensures !Faithful(w, page, now) && Missed(w.m, page, now) == {id} && Near(w.pushLog, at)
  {
    assert page[..0] == [];
    assert Remember(w.m.history, page, now) == map[id := Entry(at, now, false)];
    NearIsDelivered(w.m.pushDings, at);
  }

  /** Nothing was judged or evicted yet. */
  ghost predicate Quiet(w: World, pushes: seq<int>, h: map<string, Entry>, at: int) {
    w.m == Memory(pushes, Some(at), h, None) && w.evicted == [] && at in w.pushLog
  }

  lemma FirstPush(w: World, at: int) returns (v: World)
    requires |w.m.pushDings| == 0 && w.m.newestPush == None && w.m.history == map[] && w.m.lastMissed == None
    requires w.evicted == []
    ensures v == Apply(w, Push(at)) && Quiet(v, [at], map[], at)
  {
    v := Apply(w, Push(at));
    var queue := w.m.pushDings + [at];
    assert |queue| == 1 && queue[0] == at;
    assert KeepNewest(queue) == [at];
  }

  lemma PrunedAway(w: World, nothing: seq<HistoryDing>, at: int, now: int) returns (v: World)
    requires |nothing| == 0 && at < now - RETENTION && Quiet(w, [at], map[], at)
    ensures v == Apply(w, Observe(nothing, now)) && Quiet(v, [], map[], at)
  {
    v := Apply(w, Observe(nothing, now));
    assert Remember(w.m.history, nothing, now) == map[];
    assert Missed(w.m, nothing, now) == {};
    assert AfterObserve(w.m, nothing, now).history == map[];
  }

  // ----------------------------------------------------------------- counting, exactly

  /** The bound is exact: every run whose clock steps back by at most `d` counts each ding at most once if and only if
      `d` is at most 3600 seconds. */
  lemma CountingIsExact(d: nat)
    ensures (forall steps, time :: StepsBackAtMost(steps, d) && OneTimePerId(steps, time) ==> CountsOnce(Run(steps)))
            <==> d <= OBSERVE_MAX_AGE
  {
    if d <= OBSERVE_MAX_AGE {
      forall steps, time | StepsBackAtMost(steps, d) && OneTimePerId(steps, time)
        ensures CountsOnce(Run(steps))
      {
        EachMissCountedOnce(steps, time);
      }
    } else {
      var steps, time := CountedTwiceBeyond(d);
    }
  }

  ghost predicate CountsOnce(w: World) {
    forall id :: w.counted[id] <= 1
  }

  /** One second more and a ding can be counted, forgotten while the clock is ahead, read again and counted again. */
  lemma CountedTwiceBeyond(d: nat) returns (steps: seq<Step>, time: string -> int)
    requires d > OBSERVE_MAX_AGE
    ensures StepsBackAtMost(steps, d) && OneTimePerId(steps, time) && !CountsOnce(Run(steps))
  {
    var page := [HistoryDing("ding", 0)];
    time := _ => 0;
    steps := CountedTwice(page, [], "ding", 1000, GRACE, OBSERVE_MAX_AGE + d, OBSERVE_MAX_AGE);
    TwiceIsNotOnce(Run(steps), "ding");
    SteppingBack(steps, d);
  }

  lemma TwiceIsNotOnce(w: World, id: string)
    requires w.counted[id] == 2
    ensures !CountsOnce(w)
  {
  }

  lemma SteppingBack(steps: seq<Step>, d: nat)
    requires |steps| == 4 && steps[0].Push? && steps[1].Observe? && steps[2].Observe? && steps[3].Observe?
    requires steps[1].now <= steps[2].now && steps[1].now <= steps[3].now && steps[2].now - d <= steps[3].now
    ensures StepsBackAtMost(steps, d)
  {
  }

  lemma CountedTwice(page: seq<HistoryDing>, nothing: seq<HistoryDing>, id: string, push: int, early: int, ahead: int,
                     back: int) returns (steps: seq<Step>)
    requires |page| == 1 && page[0] == HistoryDing(id, 0) && |nothing| == 0 && push > MATCH_WINDOW && ahead > RETENTION
    requires GRACE <= early <= OBSERVE_MAX_AGE && GRACE <= back <= OBSERVE_MAX_AGE
    ensures steps == [Push(push), Observe(page, early), Observe(nothing, ahead), Observe(page, back)]
    ensures Run(steps).counted[id] == 2
  {
    var two := CountedFirst(page, id, push, early);
    steps := CountedAgain(two, page, nothing, id, push, early, ahead, back);
  }

  lemma CountedFirst(page: seq<HistoryDing>, id: string, push: int, early: int) returns (steps: seq<Step>)
    requires |page| == 1 && page[0] == HistoryDing(id, 0) && push > MATCH_WINDOW && GRACE <= early <= OBSERVE_MAX_AGE
    ensures steps == [Push(push), Observe(page, early)] && Judged1(Run(steps), id, push, early, 1)
  {
    var w1 := BlankStart(push, id);
    var w2 := JudgedAtOnce(w1, page, id, push, early);
    steps := TwoSteps(Push(push), Observe(page, early));
  }

  lemma CountedAgain(two: seq<Step>, page: seq<HistoryDing>, nothing: seq<HistoryDing>, id: string, push: int,
                     early: int, ahead: int, back: int) returns (steps: seq<Step>)
    requires |page| == 1 && page[0] == HistoryDing(id, 0) && |nothing| == 0 && push > MATCH_WINDOW && ahead > RETENTION
    requires GRACE <= back <= OBSERVE_MAX_AGE && Judged1(Run(two), id, push, early, 1)
    ensures steps == two + [Observe(nothing, ahead), Observe(page, back)] && Run(steps).counted[id] == 2
  {
    var w3 := ForgottenAhead(Run(two), nothing, id, push, early, ahead);
    var w4 := JudgedAtOnce(w3, page, id, push, back);
    steps := TwoMore(two, Observe(nothing, ahead), Observe(page, back));
  }

  lemma TwoMore(steps: seq<Step>, a: Step, b: Step) returns (more: seq<Step>)
    ensures more == steps + [a, b] && Run(more) == Apply(Apply(Run(steps), a), b)
  {
    more := steps + [a, b];
    assert more == (steps + [a]) + [b];
    RunSnoc(steps, a);
    RunSnoc(steps + [a], b);
  }

  /** Nothing is remembered; the one push at `push` matches nothing; the ding at 0 was counted `n` times. */
  ghost predicate Blank(w: World, id: string, push: int, n: nat) {
    && w.m.history == map[] && w.m.newestPush == Some(push) && (forall p :: p in w.m.pushDings ==> p == push)
    && w.m.lastMissed == (if n == 0 then None else Some(0)) && w.counted[id] == n
  }

  /** The ding is remembered as judged and was counted `n` times. */
  ghost predicate Judged1(w: World, id: string, push: int, at: int, n: nat) {
    && w.m.history == map[id := Entry(0, at, true)] && w.m.newestPush == Some(push)
    && (forall p :: p in w.m.pushDings ==> p == push) && w.m.lastMissed == Some(0) && w.counted[id] == n
  }

  lemma BlankStart(push: int, id: string) returns (w: World)
    ensures w == Apply(START, Push(push)) && Blank(w, id, push, 0)
  {
    w := FirstPush(START, push);
  }

  lemma JudgedAtOnce(w: World, page: seq<HistoryDing>, id: string, push: int, now: int) returns (after: World)
    requires |page| == 1 && page[0] == HistoryDing(id, 0) && push > MATCH_WINDOW && GRACE <= now <= OBSERVE_MAX_AGE
    requires Blank(w, id, push, w.counted[id])
    ensures after == Apply(w, Observe(page, now)) && Judged1(after, id, push, now, w.counted[id] + 1)
  {
    after := Apply(w, Observe(page, now));
    var h := map[id := Entry(0, now, false)];
    assert Remember(w.m.history, page[..0], now) == map[];
    assert Remember(w.m.history, page, now) == h;
    assert PushProven(w.m) && Due(h[id], true, now) && !Delivered(w.m.pushDings, 0);
    assert Missed(w.m, page, now) == {id};
    var v := AfterObserve(w.m, page, now);
    assert v.history == map[id := Entry(0, now, true)];
    assert v.lastMissed == Newest(w.m.lastMissed, h, {id});
  }

  lemma ForgottenAhead(w: World, nothing: seq<HistoryDing>, id: string, push: int, at: int, now: int)
    returns (after: World)
    requires |nothing| == 0 && now > RETENTION && w.counted[id] > 0 && Judged1(w, id, push, at, w.counted[id])
    ensures after == Apply(w, Observe(nothing, now)) && Blank(after, id, push, w.counted[id])
  {
    after := Apply(w, Observe(nothing, now));
    assert Remember(w.m.history, nothing, now) == w.m.history;
    assert Missed(w.m, nothing, now) == {};
    assert AfterObserve(w.m, nothing, now).history == map[];
  }
}
