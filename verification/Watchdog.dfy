/**
 The push-silence watchdog of one Intercom.

 `Memory` is the state of the watchdog as a value, `AfterPush` and `AfterObserve` say what one call
 does to it, and class `DingWatchdog` is the in-place implementation. Module `WatchdogRuns`
 follows whole runs and pairs the bounded memory with everything that ever happened.
 */
module Watchdog {
  import opened Wrappers

  const MATCH_WINDOW := 90
  const GRACE := 120
  const UNPROVEN_GRACE := 15
  const DEGRADED_WINDOW := 24 * 60 * 60
  const OBSERVE_MAX_AGE := 60 * 60
  const RETENTION := 2 * OBSERVE_MAX_AGE
  const MEMORY_LIMIT := 256

  datatype HistoryDing = HistoryDing(eventId: string, occurredAt: int)

  /** When a remembered ding rang, when it was first read, and whether it was judged. */
  datatype Entry = Entry(at: int, seen: int, judged: bool)

  datatype Memory = Memory(
    pushDings: seq<int>,
    newestPush: Option<int>,
    history: map<string, Entry>,
    lastMissed: Option<int>)

  datatype DingHealth = DingHealth(pushDegraded: bool, lastMissedDingAt: Option<int>)

  const EMPTY := Memory([], None, map[], None)

  // ---------------------------------------------------------------- one call

  function KeepNewest(pushes: seq<int>): (r: seq<int>)
    ensures |r| <= MEMORY_LIMIT && |r| <= |pushes|
  {
    if |pushes| > MEMORY_LIMIT then pushes[|pushes| - MEMORY_LIMIT..] else pushes
  }

  function AfterPush(m: Memory, at: int): Memory {
    m.(pushDings := KeepNewest(m.pushDings + [at]), newestPush := MaxOption(m.newestPush, at))
  }

  /** The pushes not older than `cutoff`, in order. */
  function Recent(pushes: seq<int>, cutoff: int): (r: seq<int>)
    ensures forall p :: p in r <==> p in pushes && p >= cutoff
    ensures (forall p :: p in pushes ==> p < cutoff) ==> r == []
  {
    if pushes == [] then []
    else
      var rest := Recent(pushes[..|pushes| - 1], cutoff);
      var last := pushes[|pushes| - 1];
      assert pushes == pushes[..|pushes| - 1] + [last] && last in pushes;
      if last >= cutoff then rest + [last] else rest
  }

  function RememberOne(h: map<string, Entry>, d: HistoryDing, now: int): map<string, Entry> {
    if d.occurredAt >= now - OBSERVE_MAX_AGE && |h| < MEMORY_LIMIT && d.eventId !in h
    then h[d.eventId := Entry(d.occurredAt, now, false)]
    else h
  }

  function Remember(h: map<string, Entry>, page: seq<HistoryDing>, now: int): map<string, Entry> {
    if page == [] then h
    else RememberOne(Remember(h, page[..|page| - 1], now), page[|page| - 1], now)
  }

  /** A push ding was seen and none was missed after it. */
  predicate PushProven(m: Memory) {
    m.newestPush.Some? && (m.lastMissed.Some? ==> m.newestPush.value >= m.lastMissed.value)
  }

  predicate Due(e: Entry, proven: bool, now: int) {
    !e.judged && (if proven then now - e.at >= GRACE else now - e.seen >= UNPROVEN_GRACE)
  }

  predicate Matches(push: int, at: int) {
    -MATCH_WINDOW <= push - at <= MATCH_WINDOW
  }

  predicate Delivered(pushes: seq<int>, at: int) {
    exists p :: p in pushes && Matches(p, at)
  }

  /** The dings of `h` that a call at `now` finds due and without a matching push. */
  function MissedOf(h: map<string, Entry>, proven: bool, pushes: seq<int>, now: int): set<string> {
    set id | id in h && Due(h[id], proven, now) && !Delivered(pushes, h[id].at)
  }

  function Judged(h: map<string, Entry>, proven: bool, now: int): map<string, Entry> {
    map id | id in h :: if Due(h[id], proven, now) then h[id].(judged := true) else h[id]
  }

  lemma {:induction false} LatestExists(h: map<string, Entry>, ids: set<string>)
    requires ids != {} && ids <= h.Keys
    ensures exists m :: m in ids && forall x :: x in ids ==> h[x].at <= h[m].at
    decreases ids
  {
    var x :| x in ids;
    if ids == {x} {
      assert x in ids && forall z :: z in ids ==> h[z].at <= h[x].at;
    } else {
      LatestExists(h, ids - {x});
      var y :| y in ids - {x} && forall z :: z in ids - {x} ==> h[z].at <= h[y].at;
      var m := if h[x].at > h[y].at then x else y;
      assert forall z :: z in ids ==> z == x || z in ids - {x};
      assert m in ids && forall z :: z in ids ==> h[z].at <= h[m].at;
    }
  }

  /** The later of `o` and the newest time among `ids`. */
  ghost function Newest(o: Option<int>, h: map<string, Entry>, ids: set<string>): (r: Option<int>)
    requires ids <= h.Keys
    ensures ids == {} ==> r == o
    ensures r == o || exists id :: id in ids && r == Some(h[id].at)
    ensures o.Some? ==> r.Some? && r.value >= o.value
    ensures forall id :: id in ids ==> r.Some? && r.value >= h[id].at
  {
    if ids == {} then o
    else
      LatestExists(h, ids);
      var m :| m in ids && forall x :: x in ids ==> h[x].at <= h[m].at;
      MaxOption(o, h[m].at)
  }

  /** The ids one `observe` call reports as missed by push. */
  function Missed(m: Memory, page: seq<HistoryDing>, now: int): set<string> {
    MissedOf(Remember(m.history, page, now), PushProven(m), m.pushDings, now)
  }

  ghost function AfterObserve(m: Memory, page: seq<HistoryDing>, now: int): Memory {
    var h := Remember(m.history, page, now);
    var judged := Judged(h, PushProven(m), now);
    Memory(
      Recent(m.pushDings, now - RETENTION),
      m.newestPush,
      map id | id in judged && judged[id].at >= now - RETENTION :: judged[id],
      Newest(m.lastMissed, h, Missed(m, page, now)))
  }

  function Health(m: Memory, now: int): DingHealth {
    DingHealth(
      m.lastMissed.Some? && now - m.lastMissed.value <= DEGRADED_WINDOW
      && (m.newestPush.Some? ==> m.newestPush.value < m.lastMissed.value),
      m.lastMissed)
  }

  /** Push was seen to work: a push ding is known and none was missed after it. */
  predicate ProvenPlainly(newestPush: Option<int>, lastMissed: Option<int>) {
    newestPush.Some? && (lastMissed.Some? ==> newestPush.value >= lastMissed.value)
  }

  /** The dings that waited two minutes since they rang, or fifteen seconds since they were read while push is
      unproven, and have no push within 90 seconds: the verdict in plain arithmetic. */
  function Unmatched(h: map<string, Entry>, proven: bool, pushes: seq<int>, now: int): set<string> {
    set id | id in h && !h[id].judged && (if proven then now >= h[id].at + 120 else now >= h[id].seen + 15)
             && forall p :: p in pushes ==> p < h[id].at - 90 || p > h[id].at + 90
  }

  lemma MissedPlainly(h: map<string, Entry>, proven: bool, pushes: seq<int>, now: int)
    ensures MissedOf(h, proven, pushes, now) == Unmatched(h, proven, pushes, now)
  {
    forall id | id in h
      ensures Delivered(pushes, h[id].at) <==> !(forall p :: p in pushes ==> p < h[id].at - 90 || p > h[id].at + 90)
    {
      if p :| p in pushes && !(p < h[id].at - 90 || p > h[id].at + 90) {
        assert Matches(p, h[id].at);
      }
    }
  }

  lemma NewestGrows(o: Option<int>, h: map<string, Entry>, ids: set<string>, id: string)
    requires ids <= h.Keys && id in h
    ensures Newest(o, h, ids + {id}) == MaxOption(Newest(o, h, ids), h[id].at)
  {
    assert id in ids + {id};
    assert forall x :: x in ids ==> x in ids + {id};
  }

  /** The history while the dings in `todo` are still to be visited. */
  ghost function Progress(h: map<string, Entry>, todo: set<string>, proven: bool, now: int): map<string, Entry> {
    map id | id in h :: if id !in todo && Due(h[id], proven, now) then h[id].(judged := true) else h[id]
  }

  lemma ProgressEnds(h: map<string, Entry>, proven: bool, pushes: seq<int>, now: int)
    ensures Progress(h, h.Keys, proven, now) == h
    ensures Progress(h, {}, proven, now) == Judged(h, proven, now)
    ensures MissedOf(h, proven, pushes, now) - h.Keys == {}
    ensures MissedOf(h, proven, pushes, now) - {} == MissedOf(h, proven, pushes, now)
  {
  }

  lemma ProgressStep(h: map<string, Entry>, todo: set<string>, id: string, proven: bool, pushes: seq<int>, now: int,
                     last: Option<int>)
    requires id in todo && todo <= h.Keys
    ensures var all := MissedOf(h, proven, pushes, now);
            var before, after := Progress(h, todo, proven, now), Progress(h, todo - {id}, proven, now);
            && before[id] == h[id]
            && after == (if Due(h[id], proven, now) then before[id := h[id].(judged := true)] else before)
            && all - (todo - {id}) == (if id in all then (all - todo) + {id} else all - todo)
            && (id in all ==> Newest(last, h, all - (todo - {id})) == MaxOption(Newest(last, h, all - todo), h[id].at))
  {
    var all := MissedOf(h, proven, pushes, now);
    if id in all {
      assert all - (todo - {id}) == (all - todo) + {id};
      NewestGrows(last, h, all - todo, id);
    } else {
      assert all - (todo - {id}) == all - todo;
    }
  }

  /** The watchdog as the bridge keeps it, one per event queue. */
  class DingWatchdog {
    var pushDings: seq<int>
    var newestPush: Option<int>
    var history: map<string, Entry>
    var lastMissed: Option<int>

    function Value(): Memory
      reads this
    {
      Memory(pushDings, newestPush, history, lastMissed)
    }

    constructor ()
      ensures Value() == EMPTY
    {
      pushDings, newestPush, history, lastMissed := [], None, map[], None;
    }

    method RecordPush(occurredAt: int)
      modifies this
      ensures Value() == AfterPush(old(Value()), occurredAt)
    {
      pushDings := pushDings + [occurredAt];
      ghost var all := pushDings;
      while |pushDings| > MEMORY_LIMIT
        invariant |pushDings| <= |all| && pushDings == all[|all| - |pushDings|..]
        invariant |all| > MEMORY_LIMIT ==> |pushDings| >= MEMORY_LIMIT
        invariant |all| <= MEMORY_LIMIT ==> pushDings == all
        invariant newestPush == old(newestPush) && history == old(history) && lastMissed == old(lastMissed)
      {
        pushDings := pushDings[1..];
      }
      newestPush := MaxOption(newestPush, occurredAt);
    }

    /** Remembers new history dings, then judges those past their grace period. The history map is
        visited in an order nobody controls; the contract shows that the order does not matter. The result is the
        number of dings that waited long enough and have no push within 90 seconds. */
    method Observe(page: seq<HistoryDing>, now: int) returns (missed: nat)
      modifies this
      ensures Value() == AfterObserve(old(Value()), page, now)
      ensures missed == |Missed(old(Value()), page, now)|
      ensures var h, pushes := Remember(old(history), page, now), old(pushDings);
              missed == |Unmatched(h, ProvenPlainly(old(newestPush), old(lastMissed)), pushes, now)|
    {
      RememberPage(page, now);
      var proven := match newestPush {
        case None => false
        case Some(push) => lastMissed == None || lastMissed.value <= push
      };
      ghost var h := history;
      missed := JudgeDue(proven, now);
      MissedPlainly(h, proven, pushDings, now);
      history := map id | id in history && history[id].at >= now - RETENTION :: history[id];
      RetainRecent(now - RETENTION);
    }

    method RememberPage(page: seq<HistoryDing>, now: int)
      modifies this`history
      ensures history == Remember(old(history), page, now)
    {
      for i := 0 to |page|
        invariant history == Remember(old(history), page[..i], now)
      {
        assert page[..i + 1][..i] == page[..i];
        var ding := page[i];
        if ding.occurredAt >= now - OBSERVE_MAX_AGE && |history| < MEMORY_LIMIT {
          if ding.eventId !in history {
            history := history[ding.eventId := Entry(ding.occurredAt, now, false)];
          }
        }
      }
      assert page[..|page|] == page;
    }

    method RetainRecent(cutoff: int)
      modifies this`pushDings
      ensures pushDings == Recent(old(pushDings), cutoff)
    {
      var kept: seq<int> := [];
      for i := 0 to |pushDings|
        modifies {}
        invariant kept == Recent(pushDings[..i], cutoff)
      {
        assert pushDings[..i + 1][..i] == pushDings[..i];
        if pushDings[i] >= cutoff {
          kept := kept + [pushDings[i]];
        }
      }
      assert pushDings[..|pushDings|] == pushDings;
      pushDings := kept;
    }

    method JudgeDue(proven: bool, now: int) returns (missed: nat)
      modifies this`history, this`lastMissed
      ensures history == Judged(old(history), proven, now)
      ensures missed == |MissedOf(old(history), proven, pushDings, now)|
      ensures lastMissed == Newest(old(lastMissed), old(history), MissedOf(old(history), proven, pushDings, now))
    {
      ghost var all := MissedOf(history, proven, pushDings, now);
      var pushes, before, latest := pushDings, history, lastMissed;
      var todo, hist, last := before.Keys, before, latest;
      missed := 0;
      ProgressEnds(before, proven, pushes, now);
      while todo != {}
        modifies {}
        invariant todo <= before.Keys
        invariant hist == Progress(before, todo, proven, now)
        invariant missed == |all - todo|
        invariant last == Newest(latest, before, all - todo)
      {
        var id :| id in todo;
        var e := hist[id];
        ProgressStep(before, todo, id, proven, pushes, now, latest);
        todo := todo - {id};
        var waited := if proven then now - e.at >= GRACE else now - e.seen >= UNPROVEN_GRACE;
        if !e.judged && waited {
          hist := hist[id := e.(judged := true)];
          var delivered := AnyWithin(pushes, e.at);
          if !delivered {
            missed := missed + 1;
            last := MaxOption(last, e.at);
          }
        }
      }
      history, lastMissed := hist, last;
    }

    method AnyWithin(pushes: seq<int>, at: int) returns (found: bool)
      ensures found <==> Delivered(pushes, at)
      ensures found <==> exists p :: p in pushes && at - 90 <= p <= at + 90
    {
      found := false;
      for i := 0 to |pushes|
        invariant found <==> exists k :: 0 <= k < i && at - 90 <= pushes[k] <= at + 90
      {
        var distance := if pushes[i] - at < 0 then at - pushes[i] else pushes[i] - at;
        if distance <= MATCH_WINDOW {
          found := true;
        }
      }
      if found {
        var k :| 0 <= k < |pushes| && at - 90 <= pushes[k] <= at + 90;
        assert pushes[k] in pushes && Matches(pushes[k], at);
      }
    }

    method CurrentHealth(now: int) returns (health: DingHealth)
      ensures health == Health(Value(), now)
    {
      var degraded := match lastMissed {
        case None => false
        case Some(missed) =>
          now - missed <= DEGRADED_WINDOW && (newestPush == None || newestPush.value < missed)
      };
      health := DingHealth(degraded, lastMissed);
    }
  }
}
