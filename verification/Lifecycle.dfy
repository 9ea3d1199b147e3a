/**
 The account lifecycle lock. Every client handed out by the provider holds a read guard; enrollment
 persists the new session, resets the cached client and reloads push under the write guard. Tasks take
 their steps in any interleaving. Sessions are told apart by the enrollment that created them.
 */
module Lifecycle {
  import opened Wrappers

  /** The write guard's holder. */
  datatype Writer =
    | Enrolling                 // talking to Ring
    | Stored(session: nat)      // the new session is on disk
    | Reset(session: nat)       // and the cached client is gone

  datatype Event =
    | Loaded(session: nat)      // a client was built from the session file
    | Wrote(session: nat)       // a client of that session wrote the session file
    | Published(session: nat)   // discovery of that session replaced the route table
    | Completed(session: nat)   // an enrollment returned success

  datatype State = State(
    disk: nat,                        // session in the file
    cached: Option<nat>,              // session of the cached client
    readers: map<nat, Option<nat>>,   // tasks with a read guard, and the session of their client
    writer: Option<Writer>,
    routes: Option<nat>,
    enrollments: nat,                 // numbers the enrollments
    log: seq<Event>)

  datatype Step =
    | AcquireRead(task: nat)
    | GetClient(task: nat)            // reuse the cached client or load the file
    | WriteSession(task: nat)         // token rotation inside a request
    | PublishRoutes(task: nat)        // end of a discovery
    | ReleaseRead(task: nat)
    | AcquireWrite
    | AskForCode                      // two-factor challenge: nothing stored yet
    | FailEnrollment(renamed: bool)   // `renamed`: the file was replaced although an error was reported
    | PersistSession
    | ResetClient
    | FinishEnrollment

  const START := State(0, None, map[], None, None, 0, [])

  predicate HasClient(s: State, task: nat) {
    task in s.readers && s.readers[task].Some?
  }

  predicate Enabled(s: State, step: Step) {
    match step
    case AcquireRead(task) => s.writer.None? && task !in s.readers
    case GetClient(task) => task in s.readers && s.readers[task].None?
    case WriteSession(task) => HasClient(s, task)
    case PublishRoutes(task) => HasClient(s, task)
    case ReleaseRead(task) => task in s.readers
    case AcquireWrite => s.writer.None? && s.readers == map[]
    case AskForCode => s.writer == Some(Enrolling)
    case FailEnrollment(_) => s.writer == Some(Enrolling)
    case PersistSession => s.writer == Some(Enrolling)
    case ResetClient => s.writer.Some? && s.writer.value.Stored?
    case FinishEnrollment => s.writer.Some? && s.writer.value.Reset?
  }

  function Next(s: State, step: Step): State
    requires Enabled(s, step)
  {
    match step
    case AcquireRead(task) => s.(readers := s.readers[task := None])
    case GetClient(task) =>
      if s.cached.Some? then s.(readers := s.readers[task := s.cached])
      else s.(cached := Some(s.disk), readers := s.readers[task := Some(s.disk)], log := s.log + [Loaded(s.disk)])
    case WriteSession(task) =>
      var session := s.readers[task].value;
      s.(disk := session, log := s.log + [Wrote(session)])
    case PublishRoutes(task) =>
      var session := s.readers[task].value;
      s.(routes := Some(session), log := s.log + [Published(session)])
    case ReleaseRead(task) => s.(readers := s.readers - {task})
    case AcquireWrite => s.(writer := Some(Enrolling), enrollments := s.enrollments + 1)
    case AskForCode => s.(writer := None)
    case FailEnrollment(renamed) => s.(writer := None, disk := if renamed then s.enrollments else s.disk)
    case PersistSession => s.(disk := s.enrollments, writer := Some(Stored(s.enrollments)))
    case ResetClient => s.(cached := None, writer := Some(Reset(s.writer.value.session)))
    case FinishEnrollment => s.(writer := None, log := s.log + [Completed(s.writer.value.session)])
  }

  /** The session of the last enrollment that completed. */
  function Current(log: seq<Event>): nat {
    if log == [] then 0
    else if log[|log| - 1].Completed? then log[|log| - 1].session
    else Current(log[..|log| - 1])
  }

  ghost predicate IsRun(states: seq<State>, steps: seq<Step>) {
    && |states| == |steps| + 1 && states[0] == START
    && forall i :: 0 <= i < |steps| ==> Enabled(states[i], steps[i]) && states[i + 1] == Next(states[i], steps[i])
  }

  /** The condition on the store: a failure that had already replaced the session file does no harm while a client
      is cached, because nobody loads the file until the next enrollment replaces it again. */
  predicate Covered(s: State, step: Step) {
    step == FailEnrollment(true) ==> s.cached.Some?
  }

  ghost predicate AllCovered(states: seq<State>, steps: seq<Step>) {
    |states| == |steps| + 1 && forall i :: 0 <= i < |steps| ==> Covered(states[i], steps[i])
  }

  /** Each load, write and publication was by a client of the session current at that moment. */
  ghost predicate OnlyCurrent(log: seq<Event>) {
    forall i :: 0 <= i < |log| && !log[i].Completed? ==> log[i].session == Current(log[..i])
  }

  ghost predicate Inv(s: State) {
    && OnlyCurrent(s.log)
    && (s.writer.Some? ==> s.readers == map[])
    && (forall task :: HasClient(s, task) ==> s.readers[task].value == Current(s.log))
    && (s.writer.None? || s.writer.value.Enrolling? ==>
          if s.cached.Some? then s.cached.value == Current(s.log) else s.disk == Current(s.log))
    && Current(s.log) <= s.enrollments
    && (s.writer.Some? ==> Current(s.log) < s.enrollments)
    && (s.writer.Some? && !s.writer.value.Enrolling? ==> s.writer.value.session == s.enrollments)
    && (s.writer.Some? && !s.writer.value.Enrolling? ==> s.disk == s.writer.value.session)
    && (s.writer.Some? && s.writer.value.Reset? ==> s.cached.None?)
  }

  lemma LogGrows(log: seq<Event>, e: Event)
    requires OnlyCurrent(log) && (e.Completed? || e.session == Current(log))
    ensures OnlyCurrent(log + [e]) && Current(log + [e]) == if e.Completed? then e.session else Current(log)
  {
    var all := log + [e];
    assert all[..|log|] == log;
    forall i | 0 <= i < |all| && !all[i].Completed?
      ensures all[i].session == Current(all[..i])
    {
      if i < |log| {
        assert all[..i] == log[..i] && all[i] == log[i];
      }
    }
  }

  lemma StepKeeps(s: State, step: Step)
    requires Inv(s) && Enabled(s, step) && Covered(s, step)
    ensures Inv(Next(s, step))
  {
    match step
    case GetClient(task) =>
      assert task in s.readers && s.writer.None?;
      if s.cached.None? {
        LogGrows(s.log, Loaded(s.disk));
      }
    case WriteSession(task) => LogGrows(s.log, Wrote(s.readers[task].value));
    case PublishRoutes(task) => LogGrows(s.log, Published(s.readers[task].value));
    case FinishEnrollment => LogGrows(s.log, Completed(s.writer.value.session));
    case _ =>
  }

  lemma {:induction false} RunKeeps(states: seq<State>, steps: seq<Step>)
    requires IsRun(states, steps) && AllCovered(states, steps)
    ensures Inv(states[|steps|])
    decreases |steps|
  {
    if steps != [] {
      var n := |steps| - 1;
      RunKeeps(states[..n + 1], steps[..n]);
      StepKeeps(states[n], steps[n]);
    }
  }

  /** A client built before an enrollment completed never writes the session file or publishes routes
      after it, and every client built after it is loaded from the newly enrolled session. */
  lemma OldClientsNeverTouchTheNewSession(states: seq<State>, steps: seq<Step>, i: nat, j: nat)
    requires IsRun(states, steps) && AllCovered(states, steps)
    requires var log := states[|steps|].log;
             i < j < |log| && log[i].Completed? && !log[j].Completed? && (forall k :: i < k < j ==> !log[k].Completed?)
    ensures states[|steps|].log[j].session == states[|steps|].log[i].session
  {
    RunKeeps(states, steps);
    CurrentSince(states[|steps|].log, i, j);
  }

  lemma {:induction false} CurrentSince(log: seq<Event>, i: nat, j: nat)
    requires i < j <= |log| && log[i].Completed? && (forall k :: i < k < j ==> !log[k].Completed?)
    ensures Current(log[..j]) == log[i].session
    decreases j
  {
    assert log[..j][..j - 1] == log[..j - 1];
    if j > i + 1 {
      CurrentSince(log, i, j - 1);
    }
  }

  /** The condition is exact: from any reachable state in which an enrollment fails after replacing the file while no
      client is cached, the next client is built from a session whose enrollment never completed. */
  lemma UncoveredFailureMixesSessions(s: State, task: nat)
    requires Inv(s) && s.writer == Some(Enrolling) && s.cached.None?
    ensures var s1 := Next(s, FailEnrollment(true));
            && Enabled(s1, AcquireRead(task))
            && var s2 := Next(s1, AcquireRead(task));
               && Enabled(s2, GetClient(task))
               && !OnlyCurrent(Next(s2, GetClient(task)).log)
  {
    var s3 := Next(Next(Next(s, FailEnrollment(true)), AcquireRead(task)), GetClient(task));
    assert s3.log == s.log + [Loaded(s.enrollments)];
    assert s3.log[..|s.log|] == s.log;
    assert s3.log[|s.log|].session != Current(s3.log[..|s.log|]);
  }

  /** Such a state is reached: a first enrollment, with nothing loaded before. */
  lemma UncoveredFailureHappens() returns (states: seq<State>, steps: seq<Step>)
    ensures IsRun(states, steps) && AllCovered(states, steps)
    ensures var s := states[|steps|]; Inv(s) && s.writer == Some(Enrolling) && s.cached.None?
  {
    steps := [AcquireWrite];
    states := [START, Next(START, AcquireWrite)];
    RunKeeps(states, steps);
  }

  /** Nobody is stuck: a task gets a client whenever it holds the lock, built from the cached one or else from the file;
      an enrollment that took the lock, which needs all readers gone, goes on to its end, and after it the file holds
      the enrolled session and nothing is cached. */
  lemma NobodyIsStuck(s: State, task: nat)
    ensures s.writer.None? && task !in s.readers ==> Enabled(s, AcquireRead(task))
    ensures task in s.readers && s.readers[task].None? ==>
              && Enabled(s, GetClient(task))
              && Next(s, GetClient(task)).readers[task] == if s.cached.Some? then s.cached else Some(s.disk)
    ensures task in s.readers ==> Enabled(s, ReleaseRead(task)) && task !in Next(s, ReleaseRead(task)).readers
    ensures s.writer.None? ==> (Enabled(s, AcquireWrite) <==> s.readers == map[])
    ensures s.writer == Some(Enrolling) ==>
              && Enabled(s, PersistSession)
              && var t := Next(s, PersistSession);
                 && t.disk == s.enrollments && Enabled(t, ResetClient)
                 && var u := Next(t, ResetClient);
                    && u.cached.None? && u.disk == s.enrollments && Enabled(u, FinishEnrollment)
                    && Next(u, FinishEnrollment).writer.None?
                    && Next(u, FinishEnrollment).log == s.log + [Completed(s.enrollments)]
  {
  }
}
