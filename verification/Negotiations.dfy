/**
 Negotiation of a direct call: gather Ring's answer and its candidates, activate once, then wait briefly for
 late candidates.

 The inbox is everything the socket will deliver, in order; after it nothing comes and the deadline passes.
 */
module Negotiations {
  import opened Wrappers
  import opened Signaling

  datatype Arrival = Arrived(message: Incoming) | Silence | Ended | Failed

  datatype Negotiated = Negotiated(answer: string, candidates: seq<Ice>)

  predicate Proper(a: Arrival) {
    && a.Arrived?
    && !a.message.Close?
    && (a.message.Candidate? ==> |a.message.ice.candidate| <= MAX_CANDIDATE_BYTES)
  }

  function At(inbox: seq<Arrival>, i: nat): Arrival {
    if i < |inbox| then inbox[i] else Silence
  }

  /** The candidates among the first `n` arrivals, in arrival order. */
  function Candidates(inbox: seq<Arrival>, n: nat): seq<Ice>
    requires n <= |inbox|
  {
    if n == 0 then [] else
      var a := inbox[n - 1];
      Candidates(inbox, n - 1) + if a.Arrived? && a.message.Candidate? then [a.message.ice] else []
  }

  /** The newest answer among the first `n` arrivals. */
  function LastAnswer(inbox: seq<Arrival>, n: nat): Option<string>
    requires n <= |inbox|
  {
    if n == 0 then None else
      var a := inbox[n - 1];
      if a.Arrived? && a.message.Answer? then Some(a.message.sdp) else LastAnswer(inbox, n - 1)
  }

  predicate SessionBy(inbox: seq<Arrival>, n: nat)
    requires n <= |inbox|
  {
    exists i :: 0 <= i < n && inbox[i].Arrived? && inbox[i].message.SessionCreated?
  }

  predicate CameraBy(inbox: seq<Arrival>, n: nat)
    requires n <= |inbox|
  {
    exists i :: 0 <= i < n && inbox[i].Arrived? && inbox[i].message.CameraConnected?
  }

  /** Session, answer and camera are all there. */
  predicate Ready(inbox: seq<Arrival>, n: nat)
    requires n <= |inbox|
  {
    SessionBy(inbox, n) && LastAnswer(inbox, n).Some? && CameraBy(inbox, n)
  }

  /** The arrivals up to `k` complete the negotiation, and those up to `m` are late candidates before silence. */
  predicate Completes(inbox: seq<Arrival>, k: nat, m: nat) {
    && k <= m <= |inbox|
    && Ready(inbox, k)
    && (forall j: nat :: j < k ==> !Ready(inbox, j))
    && (forall j :: 0 <= j < m ==> Proper(inbox[j]))
    && AnswersValid(inbox, k)
    && |Candidates(inbox, m)| <= MAX_ICE_CANDIDATES
    && At(inbox, m) == Silence
  }

  /** How often camera options are due by the first `n` arrivals: after each one that finds session and camera. */
  function OptionsDue(inbox: seq<Arrival>, n: nat): nat
    requires n <= |inbox|
  {
    if n == 0 then 0 else OptionsDue(inbox, n - 1) + if SessionBy(inbox, n) && CameraBy(inbox, n) then 1 else 0
  }

  /** Why an arrival stops the negotiation, if it does. */
  function Objection(a: Arrival, ready: bool): Error {
    match a
    case Silence => Timeout
    case Ended => ClosedByRing
    case Failed => if ready then ReadFailed else ClosedByRing
    case Arrived(message) =>
      if message.Candidate? then TooManyCandidates else if message.Close? then ClosedByRing else BadAnswer
  }

  predicate AnswersValid(inbox: seq<Arrival>, k: nat)
    requires k <= |inbox|
  {
    forall j :: 0 <= j < k && inbox[j].Arrived? && inbox[j].message.Answer? ==> inbox[j].message.valid
  }

  lemma {:induction false} ReadyStays(inbox: seq<Arrival>, j: nat, k: nat)
    requires j <= k <= |inbox|
    ensures LastAnswer(inbox, j).Some? ==> LastAnswer(inbox, k).Some?
    ensures Ready(inbox, j) ==> Ready(inbox, k)
    ensures |Candidates(inbox, j)| <= |Candidates(inbox, k)|
  {
    if j < k {
      ReadyStays(inbox, j, k - 1);
    }
  }

  /** Nothing completes an inbox whose arrival `i` is not acceptable while the call is still not ready. */
  lemma BlockedBefore(inbox: seq<Arrival>, i: nat)
    requires i <= |inbox| && !Ready(inbox, i)
    requires i < |inbox| ==>
      || !Proper(inbox[i])
      || (inbox[i].message.Answer? && !inbox[i].message.valid)
      || |Candidates(inbox, i + 1)| > MAX_ICE_CANDIDATES
    ensures forall k: nat, m: nat :: !Completes(inbox, k, m)
  {
    forall k: nat, m: nat ensures !Completes(inbox, k, m) {
      if Completes(inbox, k, m) {
        if k <= i {
          ReadyStays(inbox, k, i);
        } else {
          ReadyStays(inbox, i + 1, m);
        }
      }
    }
  }

  /** The same after `k` completed it: an unacceptable arrival before any silence. */
  lemma BlockedAfter(inbox: seq<Arrival>, k: nat, i: nat)
    requires k <= i < |inbox| && Ready(inbox, k)
    requires forall j :: 0 <= j < i ==> Proper(inbox[j])
    requires inbox[i] != Silence
    requires !Proper(inbox[i]) || |Candidates(inbox, i + 1)| > MAX_ICE_CANDIDATES
    ensures forall k: nat, m: nat :: !Completes(inbox, k, m)
  {
    forall k2: nat, m: nat ensures !Completes(inbox, k2, m) {
      if Completes(inbox, k2, m) {
        if m > i {
          ReadyStays(inbox, i + 1, m);
        }
      }
    }
  }

  lemma {:induction false} CandidatesAreShort(inbox: seq<Arrival>, n: nat)
    requires n <= |inbox| && forall j :: 0 <= j < n ==> Proper(inbox[j])
    ensures forall i :: 0 <= i < |Candidates(inbox, n)| ==> |Candidates(inbox, n)[i].candidate| <= 4096
  {
    if n > 0 {
      CandidatesAreShort(inbox, n - 1);
    }
  }

  class Negotiation {
    const wire: Exchange
    const inbox: seq<Arrival>
    var candidates: seq<Ice>

    /** What is known after `i` arrivals. */
    ghost predicate Gathered(i: nat)
      reads this
    {
      && i <= |inbox|
      && (forall j :: 0 <= j < i ==> Proper(inbox[j]))
      && candidates == Candidates(inbox, i)
      && |candidates| <= MAX_ICE_CANDIDATES
    }

    constructor (inbox: seq<Arrival>)
      ensures this.inbox == inbox && wire.Valid() && wire.log == [] && fresh(wire)
    {
      wire := new Exchange();
      this.inbox := inbox;
      candidates := [];
    }

    method PushIce(i: nat, ice: Ice) returns (ok: bool)
      requires Gathered(i) && i < |inbox| && inbox[i] == Arrived(Candidate(ice))
      modifies this`candidates
      ensures ok <==> Proper(inbox[i]) && |Candidates(inbox, i + 1)| <= MAX_ICE_CANDIDATES
      ensures ok ==> Gathered(i + 1)
    {
      if |candidates| >= MAX_ICE_CANDIDATES || |ice.candidate| > MAX_CANDIDATE_BYTES {
        return false;
      }
      candidates := candidates + [ice];
      ok := true;
    }

    /**
     Success means one activation, sent after the session and a validated answer, with the newest answer and
     every candidate in arrival order. Anything else than a failed write means that no reading of the inbox
     completes the negotiation. The errors for a missing answer or session id never occur.
     */
    method Collect() returns (r: Result<Negotiated, Error>, ghost k: nat, ghost m: nat)
      requires wire.Valid() && wire.log == []
      modifies this, wire
      ensures Ordered(wire.log) && Count(wire.log, ActivateSent) <= 1
      ensures r.Ok? ==> Completes(inbox, k, m) && Count(wire.log, ActivateSent) == 1
      ensures r.Ok? ==> Some(r.value.answer) == LastAnswer(inbox, k) && r.value.candidates == Candidates(inbox, m)
      ensures r.Ok? ==> |r.value.candidates| <= 64
      ensures r.Ok? ==> forall i :: 0 <= i < |r.value.candidates| ==> |r.value.candidates[i].candidate| <= 4096
      ensures r.Ok? ==> Count(wire.log, CameraOptionsSent) == OptionsDue(inbox, k)
      ensures r.Err? && r.error != WriteFailed ==> forall k: nat, m: nat :: !Completes(inbox, k, m)
      ensures r.Err? && r.error != WriteFailed ==>
        m <= |inbox| && r.error == Objection(At(inbox, m), Ready(inbox, m))
      ensures r != Err(NoAnswer) && r != Err(NoSession)
      ensures r == Err(WriteFailed) ==> wire.faulted
    {
      var gathered, answer, ready := Gather();
      k, m := ready, ready;
      if gathered.Err? {
        return Err(gathered.error), k, m;
      }
      var settled;
      settled, m := SettleIce(ready);
      if settled.Err? {
        ReadyStays(inbox, k, m);
        return Err(settled.error), k, m;
      }
      CandidatesAreShort(inbox, m);
      r := if answer.Some? then Ok(Negotiated(answer.value, candidates)) else Err(NoAnswer);
    }

    /** The collecting phase: until session, answer and camera are there. */
    method Gather() returns (r: Result<(), Error>, answer: Option<string>, k: nat)
      requires wire.Valid() && wire.log == []
      modifies this, wire
      ensures wire.Valid() && Count(wire.log, ActivateSent) <= 1
      ensures r.Ok? ==> Gathered(k) && Ready(inbox, k) && AnswersValid(inbox, k) && answer == LastAnswer(inbox, k)
      ensures r.Ok? ==> forall j: nat :: j < k ==> !Ready(inbox, j)
      ensures r.Ok? ==> Count(wire.log, ActivateSent) == 1 && Count(wire.log, CameraOptionsSent) == OptionsDue(inbox, k)
      ensures r.Err? && r.error != WriteFailed ==> forall k: nat, m: nat :: !Completes(inbox, k, m)
      ensures r.Err? && r.error != WriteFailed ==>
        k <= |inbox| && !Ready(inbox, k) && r.error == Objection(At(inbox, k), false)
      ensures r == Err(WriteFailed) ==> wire.faulted
    {
      var i, session, camera, activated := 0, false, false, false;
      answer, candidates := None, [];
      while !(activated && camera)
        invariant Knows(i, answer, session, camera, activated)
        invariant forall j: nat :: j < i ==> !Ready(inbox, j)
        decreases |inbox| - i
      {
        k := i;
        var arrival := At(inbox, i);
        if !arrival.Arrived? {
          BlockedBefore(inbox, i);
          return Err(if arrival.Silence? then Timeout else ClosedByRing), answer, k;
        }
        r, answer, session, camera := Arrive(i, arrival.message, answer, session, camera, activated);
        if r.Err? {
          return;
        }
        i := i + 1;
        activated := activated || (session && answer.Some?);
      }
      r, k := Ok(()), i;
    }

    /** One message of the collecting phase, and what is sent after it. */
    method Arrive(i: nat, message: Incoming, answer: Option<string>, session: bool, camera: bool, activated: bool)
      returns (r: Result<(), Error>, a: Option<string>, s: bool, c: bool)
      requires Knows(i, answer, session, camera, activated) && !(activated && camera)
      requires i < |inbox| && inbox[i] == Arrived(message)
      modifies this, wire
      ensures wire.Valid() && Count(wire.log, ActivateSent) <= 1
      ensures r.Ok? ==> Knows(i + 1, a, s, c, activated || (s && a.Some?))
      ensures r.Err? && r.error != WriteFailed ==> forall k: nat, m: nat :: !Completes(inbox, k, m)
      ensures r.Err? && r.error != WriteFailed ==> r.error == Objection(inbox[i], false)
      ensures r == Err(WriteFailed) ==> wire.faulted
    {
      a, s, c := answer, session, camera;
      r := Take(i, message);
      if r.Err? {
        BlockedBefore(inbox, i);
        return;
      }
      match message {
        case Answer(sdp, _) => a := Some(sdp);
        case SessionCreated(_) => s := true;
        case CameraConnected => c := true;
        case _ =>
      }
      NextArrival(inbox, i);
      r := Send(s, a.Some?, c, activated);
    }

    /** The local variables say what has arrived and what was sent. */
    ghost predicate Knows(i: nat, answer: Option<string>, session: bool, camera: bool, activated: bool)
      reads this, wire
    {
      && Gathered(i) && AnswersValid(inbox, i) && answer == LastAnswer(inbox, i)
      && session == SessionBy(inbox, i) && camera == CameraBy(inbox, i) && activated == (session && answer.Some?)
      && Linked(session, answer.Some?, camera, activated)
      && Count(wire.log, CameraOptionsSent) == OptionsDue(inbox, i)
    }

    /** The local flags agree with the log. */
    ghost predicate Linked(session: bool, answer: bool, camera: bool, activated: bool)
      reads wire
    {
      && wire.Valid()
      && (session <==> SessionIn(wire.log))
      && (answer <==> AnswerIn(wire.log))
      && (camera <==> CameraIn(wire.log))
      && Count(wire.log, ActivateSent) == (if activated then 1 else 0)
    }

    /** One message of the collecting phase, before anything is sent in reply. */
    method Take(i: nat, message: Incoming) returns (r: Result<(), Error>)
      requires Gathered(i) && i < |inbox| && inbox[i] == Arrived(message) && wire.Valid()
      modifies wire, this`candidates
      ensures wire.Valid() && Count(wire.log, ActivateSent) == old(Count(wire.log, ActivateSent))
      ensures Count(wire.log, CameraOptionsSent) == old(Count(wire.log, CameraOptionsSent))
      ensures r.Ok? <==>
        && Proper(inbox[i])
        && (message.Answer? ==> message.valid)
        && |Candidates(inbox, i + 1)| <= MAX_ICE_CANDIDATES
      ensures r.Ok? ==> Gathered(i + 1)
      ensures r.Ok? ==>
        && (SessionIn(wire.log) <==> old(SessionIn(wire.log)) || message.SessionCreated?)
        && (AnswerIn(wire.log) <==> old(AnswerIn(wire.log)) || message.Answer?)
        && (CameraIn(wire.log) <==> old(CameraIn(wire.log)) || message.CameraConnected?)
      ensures r.Err? ==> r.error == Objection(inbox[i], false)
    {
      Hear(message);
      r := Ok(());
      if message.Candidate? {
        var ok := PushIce(i, message.ice);
        if !ok {
          return Err(TooManyCandidates);
        }
      } else if message.Close? {
        return Err(ClosedByRing);
      } else if message.Answer? && !message.valid {
        return Err(BadAnswer);
      }
    }

    /** A message arrives; a valid answer is taken. */
    method Hear(message: Incoming)
      requires wire.Valid()
      modifies wire
      ensures wire.Valid() && Count(wire.log, ActivateSent) == old(Count(wire.log, ActivateSent))
      ensures Count(wire.log, CameraOptionsSent) == old(Count(wire.log, CameraOptionsSent))
      ensures SessionIn(wire.log) <==> old(SessionIn(wire.log)) || message.SessionCreated?
      ensures AnswerIn(wire.log) <==> old(AnswerIn(wire.log)) || (message.Answer? && message.valid)
      ensures CameraIn(wire.log) <==> old(CameraIn(wire.log)) || message.CameraConnected?
    {
      Grow(wire.log, Got(message));
      wire.Receive(message);
      if message.Answer? && message.valid {
        Grow(wire.log, AnswerAccepted(message.sdp));
        wire.Accept(message.sdp);
      }
    }

    /** What is sent after each message: activation once, camera options whenever they may be. */
    method Send(session: bool, answer: bool, camera: bool, activated: bool) returns (r: Result<(), Error>)
      requires Linked(session, answer, camera, activated) && (activated ==> session && answer)
      modifies wire`log, wire`faulted
      ensures r.Err? ==> wire.faulted
      ensures wire.Valid() && Count(wire.log, ActivateSent) <= 1
      ensures r.Ok? ==> Linked(session, answer, camera, session && answer)
      ensures r.Ok? ==> Count(wire.log, CameraOptionsSent) ==
                        old(Count(wire.log, CameraOptionsSent)) + if session && camera then 1 else 0
      ensures r.Err? ==> r.error == WriteFailed
    {
      r := Ok(());
      if session && answer && !activated {
        Grow(wire.log, ActivateSent);
        Grow(wire.log + [ActivateSent], StreamOptionsSent);
        r := wire.Activate();
        if r.Err? {
          return;
        }
      }
      if session && camera {
        Grow(wire.log, CameraOptionsSent);
        r := wire.CameraOptions();
      }
    }

    /** Waits for late candidates until silence. */
    method SettleIce(k: nat) returns (r: Result<(), Error>, ghost m: nat)
      requires wire.Valid() && Gathered(k) && Ready(inbox, k)
      modifies this`candidates, wire
      ensures wire.Valid() && Count(wire.log, ActivateSent) == old(Count(wire.log, ActivateSent))
      ensures Count(wire.log, CameraOptionsSent) == old(Count(wire.log, CameraOptionsSent))
      ensures r.Ok? ==> k <= m && Gathered(m) && At(inbox, m) == Silence
      ensures r.Err? ==> forall k: nat, m: nat :: !Completes(inbox, k, m)
      ensures r.Err? ==> k <= m <= |inbox| && r.error == Objection(At(inbox, m), true) && r.error != Timeout
    {
      var i := k;
      while true
        invariant k <= i && Gathered(i)
        invariant wire.Valid() && Count(wire.log, ActivateSent) == old(Count(wire.log, ActivateSent))
        invariant Count(wire.log, CameraOptionsSent) == old(Count(wire.log, CameraOptionsSent))
        decreases |inbox| - i
      {
        var arrival := At(inbox, i);
        match arrival
        case Silence => return Ok(()), i;
        case Ended =>
          BlockedAfter(inbox, k, i);
          return Err(ClosedByRing), i;
        case Failed =>
          BlockedAfter(inbox, k, i);
          return Err(ReadFailed), i;
        case Arrived(message) =>
          r := Late(i, message);
          if r.Err? {
            BlockedAfter(inbox, k, i);
            return r, i;
          }
          i := i + 1;
      }
    }

    /** One message after the call is ready. */
    method Late(i: nat, message: Incoming) returns (r: Result<(), Error>)
      requires wire.Valid() && Gathered(i) && i < |inbox| && inbox[i] == Arrived(message)
      modifies this`candidates, wire
      ensures wire.Valid() && Count(wire.log, ActivateSent) == old(Count(wire.log, ActivateSent))
      ensures Count(wire.log, CameraOptionsSent) == old(Count(wire.log, CameraOptionsSent))
      ensures r.Ok? ==> Gathered(i + 1)
      ensures r.Err? ==> !Proper(inbox[i]) || |Candidates(inbox, i + 1)| > MAX_ICE_CANDIDATES
      ensures r.Err? ==> r.error == Objection(inbox[i], true) && r.error != Timeout
    {
      Grow(wire.log, Got(message));
      wire.Receive(message);
      r := Ok(());
      if message.Close? {
        return Err(ClosedByRing);
      }
      if message.Candidate? {
        var ok := PushIce(i, message.ice);
        r := if ok then Ok(()) else Err(TooManyCandidates);
      }
    }
  }

  lemma NextArrival(inbox: seq<Arrival>, i: nat)
    requires i < |inbox| && inbox[i].Arrived?
    ensures SessionBy(inbox, i + 1) <==> SessionBy(inbox, i) || inbox[i].message.SessionCreated?
    ensures CameraBy(inbox, i + 1) <==> CameraBy(inbox, i) || inbox[i].message.CameraConnected?
    ensures AnswersValid(inbox, i + 1) <==>
            AnswersValid(inbox, i) && (inbox[i].message.Answer? ==> inbox[i].message.valid)
  {
  }
}
