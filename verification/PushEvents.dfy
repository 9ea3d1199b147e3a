/**
 The event queue of one Intercom: a ring of the newest 128 events with monotone sequence numbers, and
 15-second deduplication of unlocks that push and history both report.

 The state is specified by the log of everything ever published; the queue holds a view of its tail.
 */
module PushEvents {
  import opened Wrappers
  import Watchdog

  const EVENT_LIMIT := 128
  const UNLOCK_DEDUPE_SECONDS := 15
  const MAX_SEQUENCE := 0xFFFF_FFFF_FFFF_FFFF

  datatype Kind = Ding | IntercomUnlock

  datatype Detail = Detail(origin: Option<string>, actor: Option<string>)

  /** What push or history reports, before it has a sequence number. */
  datatype Report = Report(kind: Kind, occurredAt: int, detail: Detail)

  datatype Event = Event(sequence: nat, report: Report)

  /** The counter saturates instead of wrapping. */
  function SequenceAt(index: nat): nat {
    if index + 1 <= MAX_SEQUENCE then index + 1 else MAX_SEQUENCE
  }

  function EventAt(log: seq<Report>, index: nat): Event
    requires index < |log|
  {
    Event(SequenceAt(index), log[index])
  }

  function Slice(log: seq<Report>, from: nat): (r: seq<Event>)
    requires from <= |log|
    ensures |r| == |log| - from
    ensures forall k :: 0 <= k < |r| ==> r[k] == EventAt(log, from + k)
  {
    seq(|log| - from, k requires 0 <= k < |log| - from => EventAt(log, from + k))
  }

  function Oldest(log: seq<Report>): nat {
    if |log| > EVENT_LIMIT then |log| - EVENT_LIMIT else 0
  }

  /** The events still held: a contiguous tail of the log. */
  function Retained(log: seq<Report>): seq<Event> {
    Slice(log, Oldest(log))
  }

  predicate SameUnlock(a: Report, b: Report) {
    && a.kind == b.kind == IntercomUnlock
    && -UNLOCK_DEDUPE_SECONDS <= a.occurredAt - b.occurredAt <= UNLOCK_DEDUPE_SECONDS
  }

  predicate Repeats(events: seq<Event>, report: Report) {
    exists k :: 0 <= k < |events| && SameUnlock(events[k].report, report)
  }

  /** One publication attempt on the log. */
  function LogAfter(log: seq<Report>, report: Report): seq<Report> {
    if Repeats(Retained(log), report) then log else log + [report]
  }

  function Published(reports: seq<Report>): seq<Report> {
    if reports == [] then []
    else LogAfter(Published(reports[..|reports| - 1]), reports[|reports| - 1])
  }

  function Latest(log: seq<Report>): nat {
    if |log| < MAX_SEQUENCE then |log| else MAX_SEQUENCE - 1
  }

  function Beyond(events: seq<Event>, after: nat): seq<Event> {
    if events == [] then []
    else
      var rest := Beyond(events[..|events| - 1], after);
      var last := events[|events| - 1];
      if last.sequence > after then rest + [last] else rest
  }

  class RingPushEvents {
    var nextSequence: nat
    var events: seq<Event>
    const watchdog: Watchdog.DingWatchdog
    ghost var log: seq<Report>

    ghost predicate Valid()
      reads this
    {
      && nextSequence == SequenceAt(|log|)
      && events == Retained(log)
    }

    constructor ()
      ensures Valid() && log == [] && fresh(watchdog) && watchdog.Value() == Watchdog.EMPTY
    {
      nextSequence, events, log := 1, [], [];
      watchdog := new Watchdog.DingWatchdog();
    }

    /** Returns false when the same unlock was already published. A ding reaches the watchdog only
        here, and only when it is published. */
    method PublishDetailed(report: Report) returns (published: bool)
      requires Valid()
      modifies this, watchdog
      ensures Valid()
      ensures log == LogAfter(old(log), report)
      ensures published <==> log == old(log) + [report]
      ensures watchdog.Value() == if report.kind == Ding
                                  then Watchdog.AfterPush(old(watchdog.Value()), report.occurredAt)
                                  else old(watchdog.Value())
    {
      if report.kind == IntercomUnlock {
        var repeats := AnyUnlockNear(report.occurredAt);
        NearIsRepeat(events, report);
        if repeats {
          return false;
        }
      }
      if report.kind == Ding {
        watchdog.RecordPush(report.occurredAt);
      }
      var sequence := nextSequence;
      nextSequence := if nextSequence < MAX_SEQUENCE then nextSequence + 1 else MAX_SEQUENCE;
      events := events + [Event(sequence, report)];
      log := log + [report];
      assert log[..|log| - 1] == old(log);
      Trim();
      published := true;
    }

    /** Whether the queue holds an unlock within 15 seconds. */
    method AnyUnlockNear(at: int) returns (found: bool)
      ensures found <==> exists k :: 0 <= k < |events| && events[k].report.kind == IntercomUnlock
                                     && at - 15 <= events[k].report.occurredAt <= at + 15
    {
      found := false;
      for i := 0 to |events|
        invariant found <==> exists k :: 0 <= k < i && events[k].report.kind == IntercomUnlock
                                         && at - 15 <= events[k].report.occurredAt <= at + 15
      {
        var distance := events[i].report.occurredAt - at;
        if events[i].report.kind == IntercomUnlock
           && (if distance < 0 then -distance else distance) <= UNLOCK_DEDUPE_SECONDS {
          found := true;
        }
      }
    }

    /** Drops the oldest events over the limit. */
    method Trim()
      requires log != [] && events == Slice(log, Oldest(log[..|log| - 1]))
      modifies this`events
      ensures events == Retained(log)
    {
      ghost var all := events;
      while |events| > EVENT_LIMIT
        invariant |events| <= |all| && events == all[|all| - |events|..]
        invariant |all| > EVENT_LIMIT ==> |events| >= EVENT_LIMIT
        invariant |all| <= EVENT_LIMIT ==> events == all
      {
        events := events[1..];
      }
      assert |events| == |Retained(log)|;
    }

    method LatestSequence() returns (latest: nat)
      requires Valid()
      ensures latest == Latest(log)
    {
      latest := nextSequence - 1;
    }

    method EventsAfter(after: nat) returns (r: seq<Event>)
      requires Valid()
      ensures r == Beyond(Retained(log), after)
    {
      r := [];
      for i := 0 to |events|
        invariant r == Beyond(events[..i], after)
      {
        assert events[..i + 1][..i] == events[..i];
        if events[i].sequence > after {
          r := r + [events[i]];
        }
      }
      assert events[..|events|] == events;
    }
  }

  lemma NearIsRepeat(events: seq<Event>, report: Report)
    requires report.kind == IntercomUnlock
    ensures Repeats(events, report) <==>
            exists k :: 0 <= k < |events| && events[k].report.kind == IntercomUnlock
                        && report.occurredAt - 15 <= events[k].report.occurredAt <= report.occurredAt + 15
  {
    if k :| 0 <= k < |events| && events[k].report.kind == IntercomUnlock
            && report.occurredAt - 15 <= events[k].report.occurredAt <= report.occurredAt + 15 {
      assert SameUnlock(events[k].report, report);
    }
  }

  // ------------------------------------------------------------- whole-log laws

  /** Two unlocks within 15 seconds of each other. */
  predicate Close(a: Report, b: Report) {
    && a.kind.IntercomUnlock? && b.kind.IntercomUnlock?
    && a.occurredAt <= b.occurredAt + 15 && b.occurredAt <= a.occurredAt + 15
  }

  /** The newest 128 published unlocks and dings decide: a report is dropped exactly when an unlock
      within 15 seconds is among the last 128 published events. */
  lemma DroppedExactlyWhenRecent(log: seq<Report>, report: Report)
    ensures LogAfter(log, report) == log <==>
            exists i :: 0 <= i < |log| && |log| - 128 <= i && Close(log[i], report)
  {
    var kept := Retained(log);
    if Repeats(kept, report) {
      var k :| 0 <= k < |kept| && SameUnlock(kept[k].report, report);
      assert Close(log[Oldest(log) + k], report);
    }
    if i :| 0 <= i < |log| && |log| - 128 <= i && Close(log[i], report) {
      assert kept[i - Oldest(log)].report == log[i];
      assert SameUnlock(kept[i - Oldest(log)].report, report);
    }
  }

  ghost predicate WellSpaced(log: seq<Report>) {
    forall i, j :: 0 <= i < j < |log| && Close(log[i], log[j]) ==> j - i >= 129
  }

  /** Over every sequence of reports, from push or history and in any order: two published unlocks
      within 15 seconds of each other are at least 129 publications apart. */
  lemma {:induction false} SameUnlockPublishedFarApart(reports: seq<Report>)
    ensures WellSpaced(Published(reports))
  {
    if reports != [] {
      var front, last := reports[..|reports| - 1], reports[|reports| - 1];
      SameUnlockPublishedFarApart(front);
      var log := Published(front);
      DroppedExactlyWhenRecent(log, last);
      forall i, j | 0 <= i < j < |Published(reports)| && Close(Published(reports)[i], Published(reports)[j])
        ensures j - i >= 129
      {
        if j == |log| {
          assert Close(log[i], last);
        } else {
          assert Close(log[i], log[j]);
        }
      }
    }
  }

  /** The same law on sequence numbers, and its consequence for the retained window: no two retained
      unlocks are within 15 seconds. */
  lemma RetainedUnlocksAreApart(reports: seq<Report>)
    ensures var kept := Retained(Published(reports));
            forall a, b :: 0 <= a < b < |kept| ==> !Close(kept[a].report, kept[b].report)
    ensures var log := Published(reports);
            |log| < MAX_SEQUENCE ==> forall i, j :: 0 <= i < j < |log| && Close(log[i], log[j]) ==>
              EventAt(log, j).sequence >= EventAt(log, i).sequence + 129
  {
    SameUnlockPublishedFarApart(reports);
    var log := Published(reports);
    var kept := Retained(log);
    forall a, b | 0 <= a < b < |kept|
      ensures !Close(kept[a].report, kept[b].report)
    {
      assert kept[a].report == log[Oldest(log) + a] && kept[b].report == log[Oldest(log) + b];
    }
  }

  /** Sequence numbers are strictly increasing exactly until the 64-bit counter saturates. */
  lemma SequencesIncreaseUntilSaturation(log: seq<Report>)
    ensures (forall i, j :: 0 <= i < j < |log| ==> EventAt(log, i).sequence < EventAt(log, j).sequence)
            <==> |log| <= 18446744073709551615
  {
    if |log| > MAX_SEQUENCE {
      assert EventAt(log, MAX_SEQUENCE - 1).sequence == EventAt(log, MAX_SEQUENCE).sequence;
    }
  }

  lemma {:induction false} BeyondAll(log: seq<Report>, events: seq<Event>, from: nat, after: nat)
    requires |log| <= MAX_SEQUENCE && from + |events| <= |log|
    requires forall k :: 0 <= k < |events| ==> events[k] == EventAt(log, from + k)
    ensures Beyond(events, after) == if after <= from then events
                                     else if after >= from + |events| then []
                                     else events[after - from..]
  {
    if events != [] {
      var front := events[..|events| - 1];
      BeyondAll(log, front, from, after);
      assert events == front + [events[|events| - 1]];
    }
  }

  /** What a reader positioned after `after` gets: every event published since then that is still
      among the newest 128, in order. */
  lemma ReadIsTheTail(log: seq<Report>, after: nat)
    requires |log| <= MAX_SEQUENCE && after <= |log|
    ensures Beyond(Retained(log), after) == Slice(log, if after <= Oldest(log) then Oldest(log) else after)
    ensures var from := if |log| > 128 && |log| - 128 > after then |log| - 128 else after;
            var r := Beyond(Retained(log), after);
            |r| == |log| - from && forall k :: 0 <= k < |r| ==> r[k] == Event(from + k + 1, log[from + k])
  {
    BeyondAll(log, Retained(log), Oldest(log), after);
    if after > Oldest(log) {
      SliceTail(log, Oldest(log), after);
    }
    SliceMeans(log, if after <= Oldest(log) then Oldest(log) else after);
  }

  lemma SliceMeans(log: seq<Report>, from: nat)
    requires |log| <= MAX_SEQUENCE && from <= |log|
    ensures var r := Slice(log, from);
            |r| == |log| - from && forall k :: 0 <= k < |r| ==> r[k] == Event(from + k + 1, log[from + k])
  {
  }

  lemma SliceTail(log: seq<Report>, from: nat, after: nat)
    requires from <= after <= |log|
    ensures Slice(log, from)[after - from..] == Slice(log, after)
  {
  }
}
