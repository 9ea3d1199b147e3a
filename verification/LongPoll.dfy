/**
 The long-poll protocol between publishers and cursor consumers of one event queue.

 Every critical section is one step, and steps of any number of publishers and consumers interleave
 freely: a publisher appends under the queue lock and notifies the watch channel later; a poll reads
 the latest sequence, subscribes, looks at the channel value, looks at the queue, parks, and reads,
 each in its own step. Consumers resume with the cursor the last response gave them.
 */
module LongPoll {
  import opened Wrappers
  import opened PushEvents

  datatype Phase =
    | Idle                          // between polls
    | Positioning                   // first poll, no cursor: will answer with the latest sequence
    | Polling(after: nat)           // cursor checked against the latest sequence
    | Subscribed(after: nat, seen: nat)
    | Borrowed(after: nat, seen: nat)   // channel value was not beyond the cursor
    | Parked(after: nat, seen: nat)     // queue held nothing beyond the cursor
    | Reading(after: nat)           // about to take the final look at the queue

  /** One completed read: the cursor it started from and the newest sequence at that moment. */
  datatype ReadRecord = ReadRecord(after: nat, newest: nat)

  datatype Consumer = Consumer(
    phase: Phase,
    cursor: Option<nat>,            // next_sequence of the last response
    base: nat,                      // where the first response positioned it
    received: seq<Event>,
    readLog: seq<ReadRecord>,
    resets: nat)                    // responses that carried cursor_reset

  const NEWCOMER := Consumer(Idle, None, 0, [], [], 0)

  datatype State = State(
    generation: string,             // of this process; consumers send it back with their cursor
    log: seq<Report>,
    version: nat,                   // of the watch channel; each notification bumps it
    value: nat,                     // of the watch channel
    pending: multiset<nat>,         // appended by a publisher that has not notified yet
    consumers: map<nat, Consumer>)

  datatype Step =
    | Append(report: Report)
    | Notify(sequence: nat)
    | Begin(c: nat)
    | Position(c: nat)
    | Subscribe(c: nat)
    | Borrow(c: nat)
    | Look(c: nat, mayWait: bool)
    | Wake(c: nat)
    | TimeOut(c: nat)
    | Read(c: nat)

  ghost predicate Init(s: State) {
    && s.log == [] && s.version == 0 && s.value == 0 && s.pending == multiset{}
    && forall c :: c in s.consumers ==> s.consumers[c] == NEWCOMER
  }

  function Put(s: State, c: nat, x: Consumer): State {
    s.(consumers := s.consumers[c := x])
  }

  /** The handler's `cursor_reset`: another generation, or a position that the queue has not reached. */
  predicate CursorReset(generation: Option<string>, own: string, after: Option<nat>, log: seq<Report>) {
    (generation.Some? && generation.value != own) || (after.Some? && after.value > Latest(log))
  }

  /** Where a poll starts reading. */
  function From(reset: bool, after: Option<nat>): Option<nat> {
    if reset then Some(0) else after
  }

  function NextSequence(events: seq<Event>, after: nat): nat {
    if events == [] then after
    else
      var last := events[|events| - 1].sequence;
      if last > after then last else after
  }

  ghost predicate Enabled(s: State, step: Step) {
    match step
    case Append(_) => true
    case Notify(sequence) => sequence in s.pending
    case Begin(c) => c in s.consumers && s.consumers[c].phase.Idle?
    case Position(c) => c in s.consumers && s.consumers[c].phase.Positioning?
    case Subscribe(c) => c in s.consumers && s.consumers[c].phase.Polling?
    case Borrow(c) => c in s.consumers && s.consumers[c].phase.Subscribed?
    case Look(c, _) => c in s.consumers && s.consumers[c].phase.Borrowed?
    case Wake(c) => c in s.consumers && s.consumers[c].phase.Parked? && s.version != s.consumers[c].phase.seen
    case TimeOut(c) => c in s.consumers && s.consumers[c].phase.Parked?
    case Read(c) => c in s.consumers && s.consumers[c].phase.Reading?
  }

  ghost function Next(s: State, step: Step): State
    requires Enabled(s, step)
  {
    match step
    case Append(report) =>
      var log := LogAfter(s.log, report);
      if log == s.log then s
      else s.(log := log, pending := s.pending + multiset{SequenceAt(|s.log|)})
    case Notify(sequence) =>
      s.(version := s.version + 1, value := sequence, pending := s.pending - multiset{sequence})
    case Begin(c) =>
      var x := s.consumers[c];
      var reset := CursorReset(if x.cursor.Some? then Some(s.generation) else None, s.generation, x.cursor, s.log);
      Put(s, c, x.(phase := match From(reset, x.cursor) { case Some(after) => Polling(after) case None => Positioning },
                   resets := if reset then x.resets + 1 else x.resets))
    case Position(c) =>
      var x := s.consumers[c];
      Put(s, c, x.(phase := Idle, cursor := Some(Latest(s.log)), base := Latest(s.log)))
    case Subscribe(c) =>
      var x := s.consumers[c];
      Put(s, c, x.(phase := Subscribed(x.phase.after, s.version)))
    case Borrow(c) =>
      var x := s.consumers[c];
      Put(s, c, x.(phase := if s.value > x.phase.after then Reading(x.phase.after)
                            else Borrowed(x.phase.after, x.phase.seen)))
    case Look(c, mayWait) =>
      var x := s.consumers[c];
      Put(s, c, x.(phase := if Beyond(Retained(s.log), x.phase.after) != [] || !mayWait
                            then Reading(x.phase.after)
                            else Parked(x.phase.after, x.phase.seen)))
    case Wake(c) =>
      var x := s.consumers[c];
      Put(s, c, x.(phase := Reading(x.phase.after)))
    case TimeOut(c) =>
      var x := s.consumers[c];
      Put(s, c, x.(phase := Reading(x.phase.after)))
    case Read(c) =>
      var x := s.consumers[c];
      Put(s, c, Answered(x, x.phase.after, Beyond(Retained(s.log), x.phase.after), Latest(s.log)))
  }

  /** The consumer after a response with these events. */
  function Answered(x: Consumer, after: nat, events: seq<Event>, newest: nat): Consumer {
    x.(phase := Idle,
       cursor := Some(NextSequence(events, after)),
       received := x.received + events,
       readLog := x.readLog + [ReadRecord(after, newest)])
  }

  // ------------------------------------------------------------------ invariant

  /** The position a consumer has reached, whatever it is doing. */
  function PhaseAfter(x: Consumer): Option<nat> {
    match x.phase
    case Idle => x.cursor
    case Positioning => None
    case _ => Some(x.phase.after)
  }

  ghost predicate PhaseOk(x: Consumer, s: State) {
    && x.resets == 0
    && (x.cursor.Some? ==> x.base <= x.cursor.value <= |s.log|)
    && PhaseAfter(x) == x.cursor
    && (x.phase.Subscribed? || x.phase.Borrowed? || x.phase.Parked? ==> x.phase.seen <= s.version)
  }

  /** The heart of the wakeup protocol. */
  ghost predicate WakeupOk(x: Consumer, s: State) {
    x.phase.Parked? && |s.log| > x.phase.after ==>
      x.phase.seen < s.version || exists p :: p in s.pending && p > x.phase.after
  }

  ghost predicate Increasing(events: seq<Event>) {
    forall i, j :: 0 <= i < j < |events| ==> events[i].sequence < events[j].sequence
  }

  /** Everything received is what was published under that number, between base and cursor. */
  ghost predicate ReceivedOk(x: Consumer, log: seq<Report>) {
    && Increasing(x.received)
    && (forall k :: 0 <= k < |x.received| ==>
          && x.cursor.Some?
          && x.base < x.received[k].sequence <= x.cursor.value <= |log|
          && x.received[k] == EventAt(log, x.received[k].sequence - 1))
  }

  /** The read that passed over sequence `n`. */
  ghost predicate Covers(r: ReadRecord, n: nat) {
    r.after < n <= r.newest
  }

  /** A published event is received exactly when the read that passed over it still found it among
      the newest 128. */
  ghost predicate SettledBy(x: Consumer, log: seq<Report>, n: nat, r: ReadRecord) {
    r in x.readLog && Covers(r, n)
    && 1 <= n <= |log|
    && (EventAt(log, n - 1) in x.received <==> r.newest < n + EVENT_LIMIT)
  }

  ghost predicate Settled(x: Consumer, log: seq<Report>, n: nat) {
    exists r :: SettledBy(x, log, n, r)
  }

  ghost predicate SettledOk(x: Consumer, log: seq<Report>) {
    forall n :: x.cursor.Some? && x.base < n <= x.cursor.value ==> Settled(x, log, n)
  }

  ghost predicate ConsumerOk(x: Consumer, s: State) {
    PhaseOk(x, s) && WakeupOk(x, s) && ReceivedOk(x, s.log) && SettledOk(x, s.log)
  }

  ghost predicate Inv(s: State) {
    && s.value <= |s.log|
    && (forall p :: p in s.pending ==> p <= |s.log|)
    && (forall c :: c in s.consumers ==> ConsumerOk(s.consumers[c], s))
  }

  lemma ConsumerSurvivesAppend(x: Consumer, s: State, report: Report)
    requires |s.log| + 1 < MAX_SEQUENCE && ConsumerOk(x, s)
    ensures ConsumerOk(x, Next(s, Append(report)))
  {
    var t := Next(s, Append(report));
    if t != s {
      assert t.log == s.log + [report];
      assert forall i :: 0 <= i < |s.log| ==> EventAt(t.log, i) == EventAt(s.log, i);
      assert SequenceAt(|s.log|) in t.pending && SequenceAt(|s.log|) == |t.log|;
      assert PhaseOk(x, t) && ReceivedOk(x, t.log);
      assert forall p :: p in s.pending ==> p in t.pending;
      forall n | x.cursor.Some? && x.base < n <= x.cursor.value
        ensures Settled(x, t.log, n)
      {
        assert Settled(x, s.log, n);
        var r :| SettledBy(x, s.log, n, r);
        assert SettledBy(x, t.log, n, r);
      }
    }
  }

  lemma ConsumerSurvivesNotify(x: Consumer, s: State, sequence: nat)
    requires sequence in s.pending && ConsumerOk(x, s)
    ensures ConsumerOk(x, Next(s, Notify(sequence)))
  {
  }

  /** What one read gives: the still retained part of what lies beyond the cursor, and a cursor that
      is exactly the newest sequence. */
  lemma ReadAdvances(log: seq<Report>, after: nat)
    requires |log| < MAX_SEQUENCE && after <= |log|
    ensures var events := Beyond(Retained(log), after);
            && NextSequence(events, after) == |log|
            && events == Slice(log, if after <= Oldest(log) then Oldest(log) else after)
            && (events == [] <==> |log| == after)
  {
    ReadIsTheTail(log, after);
  }

  /** Received events stay in order and genuine when a later slice of the log is added. */
  lemma Appended(was: seq<Event>, more: seq<Event>, log: seq<Report>, base: nat, after: nat, from: nat)
    requires |log| < MAX_SEQUENCE && base <= after <= from <= |log| && more == Slice(log, from)
    requires Increasing(was)
    requires forall k :: 0 <= k < |was| ==>
      base < was[k].sequence <= after && was[k] == EventAt(log, was[k].sequence - 1)
    ensures Increasing(was + more)
    ensures forall k :: 0 <= k < |was + more| ==>
      base < (was + more)[k].sequence <= |log| && (was + more)[k] == EventAt(log, (was + more)[k].sequence - 1)
  {
    forall k | 0 <= k < |was + more|
      ensures base < (was + more)[k].sequence <= |log| && (was + more)[k] == EventAt(log, (was + more)[k].sequence - 1)
      ensures k >= |was| ==> (was + more)[k].sequence == from + k - |was| + 1
    {
      if k >= |was| {
        assert (was + more)[k] == more[k - |was|] == EventAt(log, from + k - |was|);
      }
    }
  }

  /** A reading consumer, and what a read from its position gives. */
  ghost predicate ReadsTail(x: Consumer, log: seq<Report>, after: nat, events: seq<Event>) {
    && |log| < MAX_SEQUENCE && x.cursor == Some(after) && x.base <= after <= |log|
    && events == Slice(log, if after <= Oldest(log) then Oldest(log) else after)
    && NextSequence(events, after) == |log|
  }

  lemma ReadKeepsReceived(x: Consumer, log: seq<Report>, after: nat, events: seq<Event>)
    requires ReadsTail(x, log, after, events) && ReceivedOk(x, log)
    ensures ReceivedOk(Answered(x, after, events, |log|), log)
  {
    Appended(x.received, events, log, x.base, after, if after <= Oldest(log) then Oldest(log) else after);
  }

  lemma OlderStaySettled(x: Consumer, log: seq<Report>, after: nat, events: seq<Event>, n: nat)
    requires ReadsTail(x, log, after, events) && SettledOk(x, log) && x.base < n <= after
    ensures Settled(Answered(x, after, events, |log|), log, n)
  {
    var y := Answered(x, after, events, |log|);
    var e := EventAt(log, n - 1);
    assert e.sequence == n;
    assert Settled(x, log, n);
    var r :| SettledBy(x, log, n, r);
    assert e !in events;
    assert SettledBy(y, log, n, r);
  }

  lemma ReadSettlesNewer(x: Consumer, log: seq<Report>, after: nat, events: seq<Event>, n: nat)
    requires ReadsTail(x, log, after, events) && ReceivedOk(x, log) && after < n <= |log|
    ensures Settled(Answered(x, after, events, |log|), log, n)
  {
    var y := Answered(x, after, events, |log|);
    var e := EventAt(log, n - 1);
    var r := ReadRecord(after, |log|);
    assert e.sequence == n && r in y.readLog && e !in x.received;
    var from := if after <= Oldest(log) then Oldest(log) else after;
    if |log| < n + EVENT_LIMIT {
      assert events[n - 1 - from] == e;
    }
    assert SettledBy(y, log, n, r);
  }

  lemma PhaseOnly(x: Consumer, y: Consumer, log: seq<Report>)
    requires SettledOk(x, log) && y.cursor == x.cursor && y.base == x.base
    requires y.received == x.received && y.readLog == x.readLog
    ensures SettledOk(y, log)
  {
    forall n | y.cursor.Some? && y.base < n <= y.cursor.value
      ensures Settled(y, log, n)
    {
      assert Settled(x, log, n);
      var r :| SettledBy(x, log, n, r);
      assert SettledBy(y, log, n, r);
    }
  }

  /** A step of one consumer leaves the queue, the channel and every other consumer as they were. */
  lemma OneConsumer(s: State, c: nat, y: Consumer)
    requires Inv(s) && ConsumerOk(y, s)
    ensures Inv(Put(s, c, y))
  {
    var t := Put(s, c, y);
    forall d | d in t.consumers
      ensures ConsumerOk(t.consumers[d], t)
    {
      SameShared(t.consumers[d], s, t);
    }
  }

  lemma SameShared(x: Consumer, s: State, t: State)
    requires ConsumerOk(x, s) && t.(consumers := s.consumers) == s
    ensures ConsumerOk(x, t)
  {
  }

  lemma ReadKeeps(s: State, c: nat)
    requires Inv(s) && Enabled(s, Read(c)) && |s.log| < MAX_SEQUENCE
    ensures Inv(Next(s, Read(c)))
  {
    var x := s.consumers[c];
    var after := x.phase.after;
    var events := Beyond(Retained(s.log), after);
    assert ConsumerOk(x, s);
    ReadAdvances(s.log, after);
    ReadKeepsReceived(x, s.log, after, events);
    var y := Answered(x, after, events, |s.log|);
    forall n | y.base < n <= |s.log|
      ensures Settled(y, s.log, n)
    {
      if n <= after {
        OlderStaySettled(x, s.log, after, events, n);
      } else {
        ReadSettlesNewer(x, s.log, after, events, n);
      }
    }
    OneConsumer(s, c, y);
  }

  lemma PhaseStepKeeps(s: State, step: Step)
    requires Inv(s) && Enabled(s, step) && |s.log| < MAX_SEQUENCE
    requires !step.Append? && !step.Notify? && !step.Read?
    ensures Inv(Next(s, step))
  {
    var c := step.c;
    var y := Next(s, step).consumers[c];
    PhaseStepStays(s, step, c);
    OneConsumer(s, c, y);
  }

  lemma PhaseStepStays(s: State, step: Step, c: nat)
    requires Enabled(s, step) && |s.log| < MAX_SEQUENCE && s.value <= |s.log|
    requires !step.Append? && !step.Notify? && !step.Read? && c == step.c && ConsumerOk(s.consumers[c], s)
    ensures ConsumerOk(Next(s, step).consumers[c], s)
  {
    var x, y := s.consumers[c], Next(s, step).consumers[c];
    if step.Begin? {
      NotReset(s, x);
    }
    if step.Look? {
      ReadAdvances(s.log, x.phase.after);
    }
    if !step.Position? {
      PhaseOnly(x, y, s.log);
      WaitsWell(x, y, s, step, c);
    }
  }

  /** A consumer that comes back with the cursor and generation it was given is not reset. */
  lemma NotReset(s: State, x: Consumer)
    requires |s.log| < MAX_SEQUENCE && PhaseOk(x, s)
    ensures !CursorReset(if x.cursor.Some? then Some(s.generation) else None, s.generation, x.cursor, s.log)
  {
  }

  lemma WaitsWell(x: Consumer, y: Consumer, s: State, step: Step, c: nat)
    requires Enabled(s, step) && |s.log| < MAX_SEQUENCE && s.value <= |s.log|
    requires c in s.consumers && x == s.consumers[c]
    requires !step.Append? && !step.Notify? && !step.Read? && !step.Position? && c == step.c && ConsumerOk(x, s)
    requires y == Next(s, step).consumers[c]
    requires step.Begin? ==> y.resets == 0 && !y.phase.Parked? && PhaseAfter(y) == x.cursor
    requires step.Look? ==> (Beyond(Retained(s.log), x.phase.after) == [] <==> |s.log| == x.phase.after)
    ensures PhaseOk(y, s) && WakeupOk(y, s) && ReceivedOk(y, s.log)
  {
  }

  lemma StepKeeps(s: State, step: Step)
    requires Inv(s) && Enabled(s, step) && |Next(s, step).log| < MAX_SEQUENCE
    ensures Inv(Next(s, step))
  {
    var t := Next(s, step);
    match step
    case Append(report) =>
      if t != s {
        forall c | c in t.consumers
          ensures ConsumerOk(t.consumers[c], t)
        {
          ConsumerSurvivesAppend(s.consumers[c], s, report);
        }
      }
    case Notify(sequence) =>
      forall c | c in t.consumers
        ensures ConsumerOk(t.consumers[c], t)
      {
        ConsumerSurvivesNotify(s.consumers[c], s, sequence);
      }
    case Read(c) => ReadKeeps(s, c);
    case _ => PhaseStepKeeps(s, step);
  }

  // ------------------------------------------------------------------ whole runs

  /** A run: every state follows from the one before by an enabled step. */
  ghost predicate IsRun(states: seq<State>, steps: seq<Step>) {
    && |states| == |steps| + 1
    && Init(states[0])
    && forall i :: 0 <= i < |steps| ==> Enabled(states[i], steps[i]) && states[i + 1] == Next(states[i], steps[i])
  }

  lemma {:induction false} RunKeeps(states: seq<State>, steps: seq<Step>)
    requires IsRun(states, steps) && |states[|steps|].log| < MAX_SEQUENCE
    ensures Inv(states[|steps|])
    decreases |steps|
  {
    if steps != [] {
      var n := |steps| - 1;
      assert states[n + 1] == Next(states[n], steps[n]);
      AppendOnly(states[n], steps[n]);
      RunKeeps(states[..n + 1], steps[..n]);
      StepKeeps(states[n], steps[n]);
    }
  }

  lemma AppendOnly(s: State, step: Step)
    requires Enabled(s, step)
    ensures s.log <= Next(s, step).log
  {
  }

  /** The read that passed over entry `i` of the log delivered it exactly if it was among the newest 128 then. */
  ghost predicate AccountedFor(x: Consumer, log: seq<Report>, i: nat) {
    i < |log| && exists r :: r in x.readLog && r.after <= i < r.newest
                             && (Event(i + 1, log[i]) in x.received <==> r.newest <= i + 128)
  }

  /** A consumer that always resumes with the returned cursor never sees a reset, receives strictly
      increasing sequences, each under the number it was published with, and misses one exactly when
      the read that passed over it found the newest sequence 128 or more ahead. */
  lemma ResumingConsumerMissesOnlyOverwritten(states: seq<State>, steps: seq<Step>, c: nat)
    requires IsRun(states, steps) && |states[|steps|].log| < MAX_SEQUENCE && c in states[|steps|].consumers
    ensures var x, log := states[|steps|].consumers[c], states[|steps|].log;
            && x.resets == 0
            && (forall i, j :: 0 <= i < j < |x.received| ==> x.received[i].sequence < x.received[j].sequence)
            && (forall k :: 0 <= k < |x.received| ==>
                  var n := x.received[k].sequence; 1 <= n <= |log| && x.received[k] == Event(n, log[n - 1]))
            && (x.cursor.Some? ==> x.cursor.value <= |log| && forall i :: x.base <= i < x.cursor.value ==>
                  AccountedFor(x, log, i))
  {
    RunKeeps(states, steps);
    var x, log := states[|steps|].consumers[c], states[|steps|].log;
    assert ConsumerOk(x, states[|steps|]);
    forall k | 0 <= k < |x.received|
      ensures var n := x.received[k].sequence; 1 <= n <= |log| && x.received[k] == Event(n, log[n - 1])
    {
      assert x.received[k] == EventAt(log, x.received[k].sequence - 1);
    }
    forall i | x.cursor.Some? && x.base <= i < x.cursor.value
      ensures AccountedFor(x, log, i)
    {
      assert Settled(x, log, i + 1);
      var r :| SettledBy(x, log, i + 1, r);
      assert EventAt(log, i) == Event(i + 1, log[i]);
    }
  }

  /** No lost wakeup: while a consumer is parked with an event beyond its cursor in the queue, its wake
      step is enabled or some publisher still owes the notification of a newer event, in whatever
      order concurrent publishers notify. When it reads, it gets that event. */
  lemma NoLostWakeup(states: seq<State>, steps: seq<Step>, c: nat)
    requires IsRun(states, steps) && |states[|steps|].log| < MAX_SEQUENCE
    requires var s := states[|steps|];
             c in s.consumers && s.consumers[c].phase.Parked? && Latest(s.log) > s.consumers[c].phase.after
    ensures var s := states[|steps|];
            && (Enabled(s, Wake(c)) || exists p :: p > s.consumers[c].phase.after && Enabled(s, Notify(p)))
            && Beyond(Retained(s.log), s.consumers[c].phase.after) != []
  {
    RunKeeps(states, steps);
    var s := states[|steps|];
    assert ConsumerOk(s.consumers[c], s);
    ReadAdvances(s.log, s.consumers[c].phase.after);
    if !Enabled(s, Wake(c)) {
      var p :| p in s.pending && p > s.consumers[c].phase.after;
      assert Enabled(s, Notify(p));
    }
  }

  // ------------------------------------------------------------------ any client

  datatype Response = Response(reset: bool, events: seq<Event>, next: nat)

  /** The handler's answer to any cursor, with the queue at `seen` when it decides on a reset and at `log` when it
      reads. */
  function Respond(generation: Option<string>, own: string, after: Option<nat>, seen: seq<Report>, log: seq<Report>)
    : Response
  {
    var reset := CursorReset(generation, own, after, seen);
    match From(reset, after)
    case None => Response(reset, [], Latest(log))
    case Some(position) =>
      var events := Beyond(Retained(log), position);
      Response(reset, events, NextSequence(events, position))
  }

  /** The events from position `from` on, with the numbers they were published under. */
  predicate IsTail(events: seq<Event>, log: seq<Report>, from: nat) {
    from <= |log| && |events| == |log| - from
    && forall k :: 0 <= k < |events| ==> events[k] == Event(from + k + 1, log[from + k])
  }

  /** Whatever cursor a client sends, and whatever is published meanwhile. A client with the generation of another
      process is reset, whatever its position; one with this generation or none exactly if its position lies beyond
      the newest sequence. A reset delivers the newest 128 events, a good position those of them that lie beyond
      it, no position nothing. The next position is the newest sequence, and coming back with it is never reset,
      however much is published before. */
  lemma EveryCursorIsServed(generation: Option<string>, own: string, after: Option<nat>, seen: seq<Report>,
                            log: seq<Report>, later: seq<Report>, latest: seq<Report>)
    requires seen <= log <= later <= latest && |latest| < MAX_SEQUENCE
    ensures var r := Respond(generation, own, after, seen, log);
            var oldest := if |log| > 128 then |log| - 128 else 0;
            && (generation.Some? && generation.value != own ==> r.reset && IsTail(r.events, log, oldest))
            && (generation.None? || generation.value == own ==>
                  && (r.reset <==> after.Some? && after.value > |seen|)
                  && (after.None? ==> r.events == [])
                  && (after.Some? && after.value > |seen| ==> IsTail(r.events, log, oldest))
                  && (after.Some? && after.value <= |seen| ==>
                        IsTail(r.events, log, if after.value > oldest then after.value else oldest)))
            && r.next == |log|
    ensures var back := Respond(Some(own), own, Some(|log|), later, latest);
            var oldest := if |latest| > 128 then |latest| - 128 else 0;
            !back.reset && IsTail(back.events, latest, if |log| > oldest then |log| else oldest)
  {
    Served(generation, own, after, seen, log);
    Served(Some(own), own, Some(|log|), later, latest);
  }

  lemma Served(generation: Option<string>, own: string, after: Option<nat>, seen: seq<Report>, log: seq<Report>)
    requires seen <= log && |log| < MAX_SEQUENCE
    ensures var r := Respond(generation, own, after, seen, log);
            && r.next == |log|
            && (r.reset ==> IsTail(r.events, log, Oldest(log)))
            && (!r.reset && after.Some? ==>
                  IsTail(r.events, log, if after.value > Oldest(log) then after.value else Oldest(log)))
  {
    if CursorReset(generation, own, after, seen) {
      ReadAdvances(log, 0);
    } else if after.Some? {
      ReadAdvances(log, after.value);
    }
  }

  /** When a poll waits: after its first look it goes on to the read at once if the channel already shows a newer
      sequence; after its second it parks exactly if it may wait and nothing lies beyond its cursor. */
  lemma ParksExactly(s: State, c: nat, mayWait: bool)
    requires Inv(s) && |s.log| < MAX_SEQUENCE && c in s.consumers
    ensures Enabled(s, Borrow(c)) ==>
              var x := s.consumers[c].phase;
              Next(s, Borrow(c)).consumers[c].phase ==
                if s.value > x.after then Reading(x.after) else Borrowed(x.after, x.seen)
    ensures Enabled(s, Look(c, mayWait)) ==>
              var x := s.consumers[c].phase;
              Next(s, Look(c, mayWait)).consumers[c].phase ==
                if mayWait && |s.log| == x.after then Parked(x.after, x.seen) else Reading(x.after)
  {
    assert ConsumerOk(s.consumers[c], s);
    if Enabled(s, Look(c, mayWait)) {
      ReadAdvances(s.log, s.consumers[c].phase.after);
    }
  }

  /** No poll is stuck: in every state each of its phases has an enabled step of its own that leads on, and a parked one
      can at least time out. An answered poll is idle, and can begin again. */
  lemma NoPollIsStuck(s: State, c: nat, mayWait: bool)
    requires c in s.consumers
    ensures var x := s.consumers[c];
            match x.phase
            case Idle => Enabled(s, Begin(c)) && !Next(s, Begin(c)).consumers[c].phase.Idle?
            case Positioning =>
              Enabled(s, Position(c)) && Next(s, Position(c)).consumers[c].cursor == Some(Latest(s.log))
            case Polling(after) =>
              Enabled(s, Subscribe(c)) && Next(s, Subscribe(c)).consumers[c].phase == Subscribed(after, s.version)
            case Subscribed(_, _) => Enabled(s, Borrow(c)) && !Next(s, Borrow(c)).consumers[c].phase.Subscribed?
            case Borrowed(_, _) =>
              Enabled(s, Look(c, mayWait)) && !Next(s, Look(c, mayWait)).consumers[c].phase.Borrowed?
            case Parked(after, seen) =>
              && Enabled(s, TimeOut(c)) && Next(s, TimeOut(c)).consumers[c].phase == Reading(after)
              && (Enabled(s, Wake(c)) <==> s.version != seen)
              && (Enabled(s, Wake(c)) ==> Next(s, Wake(c)).consumers[c].phase == Reading(after))
            case Reading(after) =>
              Enabled(s, Read(c)) && Next(s, Read(c)).consumers[c].phase.Idle?
              && Next(s, Read(c)).consumers[c].received == x.received + Beyond(Retained(s.log), after)
  {
  }
}
