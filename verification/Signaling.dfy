/**
 The signaling dialogue of a call: which messages are sent, how often, and in which order.

 Replies, failures and timeouts are chosen freely by the environment. The log records what arrived and
 what was sent, in order.
 */
module Signaling {
  import opened Wrappers

  const MAX_ICE_CANDIDATES := 64
  const MAX_CANDIDATE_BYTES := 4096

  datatype Ice = Ice(candidate: string, line: nat)

  /** A decoded message for this device. `valid`: the answer negotiates bounded bidirectional media. */
  datatype Incoming =
    | Answer(sdp: string, valid: bool)
    | Candidate(ice: Ice)
    | SessionCreated(id: string)
    | CameraConnected
    | Close
    | Other

  datatype Entry =
    | Got(message: Incoming)
    | AnswerAccepted(sdp: string)
    | PeerConnected
    | ActivateSent
    | StreamOptionsSent
    | CameraOptionsSent
    | PingSent
    | ActiveReported             // the client was told that the call is active

  datatype Error =
    | Timeout | ClosedByRing | BadAnswer | TooManyCandidates
    | WriteFailed | ReadFailed | NoSession | NoAnswer

  function Count(log: seq<Entry>, e: Entry): nat {
    if log == [] then 0 else Count(log[..|log| - 1], e) + if log[|log| - 1] == e then 1 else 0
  }

  predicate SessionIn(log: seq<Entry>) {
    exists i :: 0 <= i < |log| && log[i].Got? && log[i].message.SessionCreated?
  }

  predicate AnswerIn(log: seq<Entry>) {
    exists i :: 0 <= i < |log| && log[i].AnswerAccepted?
  }

  predicate CameraIn(log: seq<Entry>) {
    exists i :: 0 <= i < |log| && log[i].Got? && log[i].message.CameraConnected?
  }

  /** The messages that arrived, in order. */
  function Heard(log: seq<Entry>): seq<Incoming> {
    if log == [] then [] else
      var last := log[|log| - 1];
      Heard(log[..|log| - 1]) + if last.Got? then [last.message] else []
  }

  /** The answers given to the peer, in order. */
  function Accepted(log: seq<Entry>): seq<string> {
    if log == [] then [] else
      var last := log[|log| - 1];
      Accepted(log[..|log| - 1]) + if last.AnswerAccepted? then [last.sdp] else []
  }

  /** The first answer that arrived, if any. */
  function FirstAnswer(log: seq<Entry>): seq<string> {
    if log == [] then [] else
      var earlier, last := FirstAnswer(log[..|log| - 1]), log[|log| - 1];
      if earlier == [] && last.Got? && last.message.Answer? then [last.message.sdp] else earlier
  }

  lemma GrowHeard(log: seq<Entry>, e: Entry)
    ensures Heard(log + [e]) == Heard(log) + if e.Got? then [e.message] else []
    ensures Accepted(log + [e]) == Accepted(log) + if e.AnswerAccepted? then [e.sdp] else []
    ensures var first := FirstAnswer(log);
            FirstAnswer(log + [e]) == if e.Got? && e.message.Answer? && first == [] then [e.message.sdp] else first
  {
    assert (log + [e])[..|log|] == log;
  }

  lemma AnswerInIsAccepted(log: seq<Entry>)
    ensures AnswerIn(log) <==> Accepted(log) != []
  {
    if log != [] {
      var front := log[..|log| - 1];
      AnswerInIsAccepted(front);
      assert log == front + [log[|log| - 1]];
      Grow(front, log[|log| - 1]);
    }
  }

  /** Nothing that is due is outstanding: each thing was sent once all it needs had happened. */
  predicate Settled(log: seq<Entry>) {
    && (Count(log, ActivateSent) > 0 <==> SessionIn(log) && AnswerIn(log))
    && (Count(log, CameraOptionsSent) > 0 <==> SessionIn(log) && CameraIn(log))
    && (Count(log, ActiveReported) > 0 <==>
          Count(log, ActivateSent) > 0 && CameraIn(log) && Count(log, PeerConnected) > 0)
  }

  lemma Grow(log: seq<Entry>, e: Entry)
    ensures Count(log + [e], ActivateSent) == Count(log, ActivateSent) + if e.ActivateSent? then 1 else 0
    ensures Count(log + [e], CameraOptionsSent) == Count(log, CameraOptionsSent) + if e.CameraOptionsSent? then 1 else 0
    ensures Count(log + [e], ActiveReported) == Count(log, ActiveReported) + if e.ActiveReported? then 1 else 0
    ensures Count(log + [e], PeerConnected) == Count(log, PeerConnected) + if e.PeerConnected? then 1 else 0
    ensures SessionIn(log + [e]) <==> SessionIn(log) || (e.Got? && e.message.SessionCreated?)
    ensures AnswerIn(log + [e]) <==> AnswerIn(log) || e.AnswerAccepted?
    ensures CameraIn(log + [e]) <==> CameraIn(log) || (e.Got? && e.message.CameraConnected?)
  {
    var all := log + [e];
    assert all[..|log|] == log;
    assert forall i :: 0 <= i < |log| ==> all[i] == log[i];
    assert all[|log|] == e;
  }

  /** Each thing is sent only after what it needs. */
  predicate Ordered(log: seq<Entry>) {
    log != [] ==> Ordered(log[..|log| - 1]) && MayFollow(log[..|log| - 1], log[|log| - 1])
  }

  predicate MayFollow(log: seq<Entry>, e: Entry) {
    && (e.ActivateSent? ==> SessionIn(log) && AnswerIn(log))
    && (e.StreamOptionsSent? ==> log != [] && log[|log| - 1] == ActivateSent)
    && (e.CameraOptionsSent? ==> SessionIn(log) && CameraIn(log))
    && (e.ActiveReported? ==> Count(log, ActivateSent) > 0 && CameraIn(log) && Count(log, PeerConnected) > 0)
  }

  /** The socket side: what arrives sets the session id, and every session message needs it. */
  class Exchange {
    var sessionId: Option<string>
    ghost var log: seq<Entry>
    ghost var faulted: bool          // a socket or peer operation failed

    ghost predicate Valid()
      reads this
    {
      Ordered(log) && (SessionIn(log) <==> sessionId.Some?)
    }

    constructor ()
      ensures Valid() && log == [] && !faulted
    {
      sessionId, log, faulted := None, [], false;
    }

    /** Whether a socket or peer operation goes through. */
    method Works() returns (ok: bool)
      modifies this`faulted
      ensures faulted == (old(faulted) || !ok)
    {
      ok := *;
      faulted := faulted || !ok;
    }

    /** A keep-alive, once there is a session. */
    method Ping() returns (ok: bool)
      requires Valid()
      modifies this`log, this`faulted
      ensures Valid() && faulted == (old(faulted) || !ok)
      ensures log == if SessionIn(old(log)) then old(log) + [PingSent] else old(log)
      ensures !SessionIn(old(log)) ==> ok
    {
      ok := true;
      if sessionId.Some? {
        var r := SessionMessage(PingSent);
        ok := r.Ok?;
      }
    }

    ghost method Note(e: Entry)
      requires Ordered(log) && MayFollow(log, e)
      modifies this`log
      ensures log == old(log) + [e] && Ordered(log)
    {
      assert (log + [e])[..|log|] == log;
      log := log + [e];
    }

    method Receive(message: Incoming)
      requires Valid()
      modifies this`log, this`sessionId
      ensures Valid() && log == old(log) + [Got(message)]
      ensures sessionId == if message.SessionCreated? then Some(message.id) else old(sessionId)
    {
      Grow(log, Got(message));
      Note(Got(message));
      if message.SessionCreated? {
        sessionId := Some(message.id);
      }
    }

    /** The peer takes an answer. */
    method Accept(sdp: string)
      requires Valid()
      modifies this`log
      ensures Valid() && log == old(log) + [AnswerAccepted(sdp)]
    {
      Grow(log, AnswerAccepted(sdp));
      Note(AnswerAccepted(sdp));
    }

    /** `activate_session` and then `stream_options`. */
    method Activate() returns (r: Result<(), Error>)
      requires Valid() && SessionIn(log) && AnswerIn(log)
      modifies this`log, this`faulted
      ensures Valid() && (r.Err? ==> r.error == WriteFailed)
      ensures (old(faulted) ==> faulted) && (r.Err? ==> faulted)
      ensures log == old(log) + [ActivateSent] || log == old(log) + [ActivateSent] + [StreamOptionsSent]
      ensures r.Ok? ==> log == old(log) + [ActivateSent] + [StreamOptionsSent]
    {
      r := SessionMessage(ActivateSent);
      if r.Ok? {
        r := SessionMessage(StreamOptionsSent);
      }
    }

    method CameraOptions() returns (r: Result<(), Error>)
      requires Valid() && SessionIn(log) && CameraIn(log)
      modifies this`log, this`faulted
      ensures (old(faulted) ==> faulted) && (r.Err? ==> faulted)
      ensures Valid() && log == old(log) + [CameraOptionsSent] && (r.Err? ==> r.error == WriteFailed)
    {
      r := SessionMessage(CameraOptionsSent);
    }

    /** Sends one message of the session; the log has it whether or not the write goes through. */
    method SessionMessage(ghost e: Entry) returns (r: Result<(), Error>)
      requires Valid() && MayFollow(log, e) && !e.Got?
      modifies this`log, this`faulted
      ensures Valid() && log == if sessionId.Some? then old(log) + [e] else old(log)
      ensures faulted == (old(faulted) || r == Err(WriteFailed))
      ensures r == Err(NoSession) <==> sessionId.None?
      ensures r.Err? ==> r.error == NoSession || r.error == WriteFailed
    {
      if sessionId.None? {
        return Err(NoSession);
      }
      Grow(log, e);
      Note(e);
      var written := Works();
      r := if written then Ok(()) else Err(WriteFailed);
    }
  }

  // ------------------------------------------------------------------- relay calls

  datatype Stage = SessionSeen | AnswerSeen | CameraSeen | OptionsSent | Activated | PeerUp | ActiveSent

  /** Which arm of the event loop fires. */
  datatype Arm =
    | Cancelled
    | LifetimeOver
    | StartupOver
    | PeerResult(ok: bool)
    | Ping
    | Message(message: Incoming)
    | Ended(failed: bool)

  datatype EndReason = UserStop | LifetimeExpired | StartupFailed | SignalingFailed | RemoteClosed | ConnectionEnded

  /** The messages among some arms, in order. */
  function Messages(arms: seq<Arm>): seq<Incoming> {
    if arms == [] then [] else
      Messages(arms[..|arms| - 1]) + MessageOf(arms[|arms| - 1])
  }

  function MessageOf(arm: Arm): seq<Incoming> {
    if arm.Message? then [arm.message] else []
  }

  /** The candidates among some arms, in order. */
  function Offered(arms: seq<Arm>): seq<Ice> {
    if arms == [] then [] else
      Offered(arms[..|arms| - 1]) + CandidateOf(arms[|arms| - 1])
  }

  function CandidateOf(arm: Arm): seq<Ice> {
    if arm.Message? && arm.message.Candidate? then [arm.message.ice] else []
  }

  predicate PeerIn(arms: seq<Arm>) {
    exists i :: 0 <= i < |arms| && arms[i].PeerResult?
  }

  lemma NextArm(arms: seq<Arm>, i: nat)
    requires i < |arms|
    ensures arms[..i + 1] == arms[..i] + [arms[i]]
    ensures Messages(arms[..i + 1]) == Messages(arms[..i]) + MessageOf(arms[i])
    ensures Offered(arms[..i + 1]) == Offered(arms[..i]) + CandidateOf(arms[i])
    ensures PeerIn(arms[..i + 1]) <==> PeerIn(arms[..i]) || arms[i].PeerResult?
  {
    var to := arms[..i + 1];
    assert to[..i] == arms[..i] && to[i] == arms[i];
    assert forall j :: 0 <= j < i ==> to[j] == arms[..i][j];
  }

  function WithSent(stages: set<Stage>): set<Stage> {
    stages
      + (if {SessionSeen, AnswerSeen} <= stages then {Activated} else {})
      + (if {SessionSeen, CameraSeen} <= stages then {OptionsSent} else {})
  }

  lemma WithSentInSteps(stages: set<Stage>)
    ensures var first := if {SessionSeen, AnswerSeen} <= stages && Activated !in stages
                         then stages + {Activated} else stages;
            var second := if {SessionSeen, CameraSeen} <= first && OptionsSent !in first
                          then first + {OptionsSent} else first;
            WithSent(stages) == second
  {
  }

  /** `Settled`, read off the stages. */
  predicate NothingDue(stages: set<Stage>) {
    && (Activated in stages <==> SessionSeen in stages && AnswerSeen in stages)
    && (OptionsSent in stages <==> SessionSeen in stages && CameraSeen in stages)
    && (ActiveSent in stages <==> Activated in stages && CameraSeen in stages && PeerUp in stages)
  }

  /** The stage set is an exact summary of the log. */
  predicate Summary(stages: set<Stage>, log: seq<Entry>) {
    && (SessionSeen in stages <==> SessionIn(log))
    && (AnswerSeen in stages <==> AnswerIn(log))
    && (CameraSeen in stages <==> CameraIn(log))
    && Count(log, ActivateSent) == (if Activated in stages then 1 else 0)
    && Count(log, CameraOptionsSent) == (if OptionsSent in stages then 1 else 0)
    && Count(log, PeerConnected) == (if PeerUp in stages then 1 else 0)
    && Count(log, ActiveReported) == (if ActiveSent in stages then 1 else 0)
  }

  /** The stage that an entry of the log proves. */
  function StageOf(e: Entry): set<Stage> {
    match e
    case Got(SessionCreated(_)) => {SessionSeen}
    case Got(CameraConnected) => {CameraSeen}
    case Got(_) => {}
    case AnswerAccepted(_) => {AnswerSeen}
    case PeerConnected => {PeerUp}
    case ActivateSent => {Activated}
    case StreamOptionsSent => {}
    case CameraOptionsSent => {OptionsSent}
    case PingSent => {}
    case ActiveReported => {ActiveSent}
  }

  lemma SummaryGrows(stages: set<Stage>, log: seq<Entry>, e: Entry)
    requires Summary(stages, log)
    requires e.PeerConnected? || e.ActivateSent? || e.CameraOptionsSent? || e.ActiveReported? ==> stages !! StageOf(e)
    ensures Summary(stages + StageOf(e), log + [e])
    ensures Heard(log + [e]) == Heard(log) + if e.Got? then [e.message] else []
    ensures Accepted(log + [e]) == Accepted(log) + if e.AnswerAccepted? then [e.sdp] else []
    ensures var first := FirstAnswer(log);
            FirstAnswer(log + [e]) == if e.Got? && e.message.Answer? && first == [] then [e.message.sdp] else first
  {
    SummaryOnly(stages, log, e);
    GrowHeard(log, e);
  }

  lemma SummaryOnly(stages: set<Stage>, log: seq<Entry>, e: Entry)
    requires Summary(stages, log)
    requires e.PeerConnected? || e.ActivateSent? || e.CameraOptionsSent? || e.ActiveReported? ==> stages !! StageOf(e)
    ensures Summary(stages + StageOf(e), log + [e])
  {
    Grow(log, e);
    assert forall x :: x in StageOf(e) ==> x in stages + StageOf(e);
  }

  /** Activation, with its stream options or without. */
  lemma ActivationGrows(stages: set<Stage>, log: seq<Entry>)
    requires Summary(stages, log) && Activated !in stages
    ensures forall after :: after == log + [ActivateSent] || after == log + [ActivateSent] + [StreamOptionsSent] ==>
              && Summary(stages + {Activated}, after) && Heard(after) == Heard(log)
              && Accepted(after) == Accepted(log) && FirstAnswer(after) == FirstAnswer(log)
  {
    SummaryGrows(stages, log, ActivateSent);
    SummaryGrows(stages + {Activated}, log + [ActivateSent], StreamOptionsSent);
    assert stages + {Activated} + StageOf(StreamOptionsSent) == stages + {Activated};
  }

  const SENT := {Activated, OptionsSent, ActiveSent}

  /** Stages reached by what arrives, before anything is sent. */
  predicate Reached(before: set<Stage>, after: set<Stage>) {
    before <= after && before * SENT == after * SENT
  }

  lemma TurnSettles(before: set<Stage>, after: set<Stage>)
    requires NothingDue(before) && Reached(before, after)
    ensures var sent := WithSent(after);
            NothingDue(if {Activated, CameraSeen, PeerUp} <= sent then sent + {ActiveSent} else sent)
  {
    assert forall x :: x in SENT ==> (x in before * SENT <==> x in after * SENT);
  }

  lemma AnswerReached(stages: set<Stage>)
    ensures Reached(stages, stages + {AnswerSeen})
  {
  }

  /** A message is heard, and taken by nobody yet. */
  lemma MessageGrows(stages: set<Stage>, log: seq<Entry>, message: Incoming)
    requires Summary(stages, log) && Accepted(log) == FirstAnswer(log)
    ensures var after, reached := log + [Got(message)], stages + StageOf(Got(message));
            && Heard(after) == Heard(log) + [message] && Accepted(after) == Accepted(log)
            && (AnswerSeen in reached <==> AnswerSeen in stages) && (AnswerSeen in stages <==> Accepted(log) != [])
            && FirstAnswer(after) ==
               (if message.Answer? && AnswerSeen !in stages then [message.sdp] else Accepted(log))
            && Reached(stages, reached) && (PeerUp in reached <==> PeerUp in stages)
  {
    GrowHeard(log, Got(message));
    AnswerInIsAccepted(log);
  }

  /** The loop got through these arms: their messages were heard, and none of them ends the call. */
  predicate Through(arms: seq<Arm>, heard: seq<Incoming>, given: seq<Ice>, peerUp: bool) {
    && heard == Messages(arms) && Close !in Messages(arms)
    && given == Offered(arms) && NoneEnds(arms)
    && (peerUp <==> PeerIn(arms))
  }

  predicate NoneEnds(arms: seq<Arm>) {
    forall i :: 0 <= i < |arms| ==> !EndsCall(arms[i])
  }

  ghost predicate SomeMayEnd(arms: seq<Arm>) {
    exists i :: 0 <= i < |arms| && MayEnd(arms[i])
  }

  /** An arm that may end the call even if nothing fails. */
  predicate MayEnd(arm: Arm) {
    EndsCall(arm) || arm.StartupOver? || arm == PeerResult(false)
  }

  /** What an arm does to the call at this stage if nothing fails. */
  function Verdict(stages: set<Stage>, arm: Arm): Option<EndReason> {
    match arm
    case Cancelled => Some(UserStop)
    case LifetimeOver => Some(LifetimeExpired)
    case StartupOver => if ActiveSent in stages then None else Some(StartupFailed)
    case PeerResult(ok) => if ok || PeerUp in stages then None else Some(StartupFailed)
    case Ping => None
    case Message(message) => if message.Close? then Some(SignalingFailed) else None
    case Ended(failed) => Some(if failed then SignalingFailed else RemoteClosed)
  }

  /** Arms that write to the socket or hand something to the peer. */
  predicate CanFail(arm: Arm) {
    arm.Ping? || (arm.Message? && (arm.message.Answer? || arm.message.Candidate?))
  }

  predicate EndsCall(arm: Arm) {
    arm.Cancelled? || arm.LifetimeOver? || arm.Ended? || arm == Message(Close)
  }

  lemma ThroughNext(arms: seq<Arm>, i: nat, heard: seq<Incoming>, given: seq<Ice>, peerUp: bool)
    requires i < |arms| && !EndsCall(arms[i]) && Through(arms[..i], heard, given, peerUp)
    ensures Through(arms[..i + 1], heard + MessageOf(arms[i]), given + CandidateOf(arms[i]),
                    peerUp || arms[i].PeerResult?)
  {
    NextArm(arms, i);
  }

  lemma AtTheStart(log: seq<Entry>, arms: seq<Arm>)
    requires log == [] && arms == []
    ensures Summary({}, log) && NothingDue({}) && Through(arms, Heard(log), [], false)
  {
  }

  /** What the stages say at the end of some arms, said of the log. */
  lemma AtTheEnd(stages: set<Stage>, log: seq<Entry>, arms: seq<Arm>, given: seq<Ice>)
    requires Summary(stages, log) && NothingDue(stages) && Through(arms, Heard(log), given, PeerUp in stages)
    ensures Settled(log) && Heard(log) == Messages(arms) && Close !in Messages(arms)
    ensures NoneEnds(arms) && given == Offered(arms) && (Count(log, PeerConnected) > 0 <==> PeerIn(arms))
  {
  }

  class RelayCall {
    const wire: Exchange
    var stages: set<Stage>
    ghost var given: seq<Ice>        // the candidates that the peer took

    ghost predicate Tracks()
      reads this, wire
    {
      wire.Valid() && Summary(stages, wire.log)
    }

    /** Nothing was sent twice. */
    ghost predicate Once()
      reads wire
    {
      && wire.Valid()
      && Count(wire.log, ActivateSent) <= 1
      && Count(wire.log, CameraOptionsSent) <= 1
      && Count(wire.log, ActiveReported) <= 1
    }

    /** The peer got the first answer that arrived, and no other. */
    ghost predicate FirstTaken()
      reads wire
    {
      Accepted(wire.log) == FirstAnswer(wire.log)
    }

    constructor ()
      ensures wire.Valid() && wire.log == [] && given == [] && fresh(wire)
    {
      wire := new Exchange();
      stages, given := {}, [];
    }

    /** In every run, whatever arrives and whatever fails, activation, camera options and the active
        report happen at most once each, and only after the stages they need. While the call goes on,
        none of them is outstanding. */
    method Drive(arms: seq<Arm>) returns (reason: Option<EndReason>)
      requires wire.Valid() && wire.log == [] && given == []
      modifies this, wire
      ensures Once() && Ordered(wire.log)
      ensures reason.None? ==> Settled(wire.log) && FirstTaken()
      ensures reason.None? ==> Heard(wire.log) == Messages(arms) && Close !in Messages(arms)
      ensures reason.None? ==> NoneEnds(arms) && given == Offered(arms)
      ensures reason.Some? ==> wire.faulted || SomeMayEnd(arms)
      ensures reason.None? ==> (Count(wire.log, PeerConnected) > 0 <==> PeerIn(arms))
    {
      stages := {};
      AtTheStart(wire.log, arms[..0]);
      for i := 0 to |arms|
        invariant Tracks() && FirstTaken() && NothingDue(stages)
        invariant Through(arms[..i], Heard(wire.log), given, PeerUp in stages)
        invariant old(wire.faulted) ==> wire.faulted
      {
        ghost var heard, had, up := Heard(wire.log), given, PeerUp in stages;
        reason := Turn(arms[i]);
        if reason.Some? {
          assert wire.faulted || MayEnd(arms[i]);
          return;
        }
        ThroughNext(arms, i, heard, had, up);
      }
      assert arms[..|arms|] == arms;
      AtTheEnd(stages, wire.log, arms, given);
      reason := None;
    }

    /** One turn of the loop: an arm, then what it made due. */
    method Turn(arm: Arm) returns (reason: Option<EndReason>)
      requires Tracks() && FirstTaken() && NothingDue(stages)
      modifies this, wire
      ensures Once()
      ensures reason.None? ==> Tracks() && FirstTaken() && NothingDue(stages)
      ensures reason.None? ==> Heard(wire.log) == old(Heard(wire.log)) + MessageOf(arm)
      ensures reason.None? ==> given == old(given) + CandidateOf(arm)
      ensures reason.None? ==> (PeerUp in stages <==> PeerUp in old(stages) || arm.PeerResult?)
      ensures (old(wire.faulted) ==> wire.faulted) && (Verdict(old(stages), arm).Some? ==> reason.Some?)
      ensures reason == Verdict(old(stages), arm) || wire.faulted
    {
      reason := React(arm);
      if reason.Some? {
        return;
      }
      reason := SendDue(old(stages));
    }

    /** Sends what an arm made due, and reports the call active once it is. */
    method SendDue(ghost before: set<Stage>) returns (reason: Option<EndReason>)
      requires Tracks() && FirstTaken() && NothingDue(before) && Reached(before, stages)
      modifies this`stages, wire`log, wire`faulted
      ensures Once() && (old(wire.faulted) ==> wire.faulted) && (reason.Some? ==> wire.faulted)
      ensures reason.None? ==> Tracks() && FirstTaken() && NothingDue(stages) && Heard(wire.log) == old(Heard(wire.log))
      ensures reason.None? ==> (PeerUp in stages <==> PeerUp in old(stages))
    {
      reason := None;
      TurnSettles(before, stages);
      var sent := MakeActive();
      if sent.Err? {
        return Some(SignalingFailed);
      }
      if {Activated, CameraSeen, PeerUp} <= stages && ActiveSent !in stages {
        var delivered := wire.Works();
        if !delivered {
          return Some(ConnectionEnded);
        }
        ReportActive();
      }
    }

    method ReportActive()
      requires Tracks() && FirstTaken() && {Activated, CameraSeen, PeerUp} <= stages && ActiveSent !in stages
      modifies this`stages, wire`log
      ensures Tracks() && FirstTaken() && stages == old(stages) + {ActiveSent}
      ensures wire.log == old(wire.log) + [ActiveReported] && Heard(wire.log) == old(Heard(wire.log))
    {
      SummaryGrows(stages, wire.log, ActiveReported);
      assert Activated in stages && CameraSeen in stages && PeerUp in stages;
      wire.Note(ActiveReported);
      stages := stages + {ActiveSent};
    }

    /** One arm of the select loop; an arm whose guard is off does not fire. */
    method React(arm: Arm) returns (reason: Option<EndReason>)
      requires Tracks() && FirstTaken()
      modifies this, wire
      ensures Tracks() && Reached(old(stages), stages)
      ensures reason.None? ==> FirstTaken() && Heard(wire.log) == old(Heard(wire.log)) + MessageOf(arm)
      ensures reason.None? ==> given == old(given) + CandidateOf(arm)
      ensures reason.None? ==> (PeerUp in stages <==> PeerUp in old(stages) || arm.PeerResult?)
      ensures old(wire.faulted) ==> wire.faulted
      ensures reason == Verdict(old(stages), arm) || (CanFail(arm) && wire.faulted && reason == Some(SignalingFailed))
      ensures arm.Message? && arm.message.Answer? && AnswerSeen in old(stages) ==> reason.None?
      ensures arm.Ping? ==> wire.log == if SessionSeen in stages then old(wire.log) + [PingSent] else old(wire.log)
    {
      match arm
      case Cancelled => reason := Some(UserStop);
      case LifetimeOver => reason := Some(LifetimeExpired);
      case StartupOver => reason := if ActiveSent !in stages then Some(StartupFailed) else None;
      case PeerResult(ok) =>
        if PeerUp in stages {
          return None;
        }
        if ok {
          Connected();
        }
        reason := if ok then None else Some(StartupFailed);
      case Ping =>
        var written := KeepAlive();
        reason := if written then None else Some(SignalingFailed);
      case Ended(failed) => reason := Some(if failed then SignalingFailed else RemoteClosed);
      case Message(message) =>
        var ok := Handle(message);
        reason := if ok then None else Some(SignalingFailed);
    }

    method KeepAlive() returns (ok: bool)
      requires Tracks() && FirstTaken()
      modifies wire`log, wire`faulted
      ensures Tracks() && FirstTaken() && Heard(wire.log) == old(Heard(wire.log))
      ensures wire.log == if SessionSeen in stages then old(wire.log) + [PingSent] else old(wire.log)
      ensures wire.faulted == (old(wire.faulted) || !ok)
    {
      SummaryGrows(stages, wire.log, PingSent);
      assert stages + StageOf(PingSent) == stages;
      ok := wire.Ping();
    }

    method Connected()
      requires Tracks() && FirstTaken() && PeerUp !in stages
      modifies this`stages, wire`log
      ensures Tracks() && FirstTaken() && stages == old(stages) + {PeerUp}
      ensures Heard(wire.log) == old(Heard(wire.log))
    {
      SummaryGrows(stages, wire.log, PeerConnected);
      Grow(wire.log, PeerConnected);
      wire.Note(PeerConnected);
      stages := stages + {PeerUp};
    }

    method Handle(message: Incoming) returns (ok: bool)
      requires Tracks() && FirstTaken()
      modifies this, wire
      ensures Tracks() && Heard(wire.log) == old(Heard(wire.log)) + [message]
      ensures ok ==> FirstTaken() && !message.Close?
      ensures ok ==> given == old(given) + CandidateOf(Message(message))
      ensures message.SessionCreated? || message.CameraConnected? || message.Other? ==> ok
      ensures message.Answer? && AnswerSeen in old(stages) ==> ok
      ensures (old(wire.faulted) ==> wire.faulted) && (!ok ==> wire.faulted || message.Close?)
      ensures Reached(old(stages), stages) && (PeerUp in stages <==> PeerUp in old(stages))
    {
      if message.Answer? {
        ok := HandleAnswer(message);
        return;
      }
      MessageGrows(stages, wire.log, message);
      See(message);
      ok := !message.Close?;
      if message.Candidate? {
        ok := AddIce(message.ice);
      }
    }

    /** The peer takes a candidate. */
    method AddIce(ice: Ice) returns (ok: bool)
      modifies this`given, wire`faulted
      ensures wire.faulted == (old(wire.faulted) || !ok)
      ensures given == old(given) + if ok then [ice] else []
    {
      ok := wire.Works();
      if ok {
        given := given + [ice];
      }
    }

    method HandleAnswer(message: Incoming) returns (ok: bool)
      requires Tracks() && FirstTaken() && message.Answer?
      modifies this`stages, wire
      ensures Tracks() && Heard(wire.log) == old(Heard(wire.log)) + [message]
      ensures ok ==> FirstTaken()
      ensures Reached(old(stages), stages) && (PeerUp in stages <==> PeerUp in old(stages))
      ensures AnswerSeen in old(stages) ==> ok
      ensures (old(wire.faulted) ==> wire.faulted) && (!ok ==> wire.faulted)
    {
      MessageGrows(stages, wire.log, message);
      See(message);
      ok := true;
      assert stages == old(stages);
      if AnswerSeen !in stages {
        AnswerReached(stages);
        assert Accepted(wire.log) == [] && FirstAnswer(wire.log) == [message.sdp];
        ok := AcceptAnswer(message.sdp);
        assert ok ==> Accepted(wire.log) == [message.sdp];
      }
    }

    /** A message arrives, and the stage it proves is reached. */
    method See(message: Incoming)
      requires Tracks()
      modifies this`stages, wire`log, wire`sessionId
      ensures Tracks() && wire.log == old(wire.log) + [Got(message)]
      ensures stages == old(stages) + StageOf(Got(message))
    {
      SummaryOnly(stages, wire.log, Got(message));
      wire.Receive(message);
      ghost var before := stages;
      stages := stages
        + (if message.SessionCreated? then {SessionSeen} else {})
        + (if message.CameraConnected? then {CameraSeen} else {});
      assert stages == before + StageOf(Got(message));
    }

    method AcceptAnswer(sdp: string) returns (accepted: bool)
      requires Tracks()
      modifies this`stages, wire`log, wire`faulted
      ensures wire.faulted == (old(wire.faulted) || !accepted)
      ensures Tracks() && Heard(wire.log) == old(Heard(wire.log)) && FirstAnswer(wire.log) == old(FirstAnswer(wire.log))
      ensures Accepted(wire.log) == old(Accepted(wire.log)) + if accepted then [sdp] else []
      ensures stages == old(stages) + if accepted then {AnswerSeen} else {}
    {
      accepted := wire.Works();
      if accepted {
        SummaryGrows(stages, wire.log, AnswerAccepted(sdp));
        wire.Accept(sdp);
        stages := stages + {AnswerSeen};
      }
    }

    /** Sends what has become due. Without an error nothing due is left unsent. */
    method MakeActive() returns (r: Result<(), Error>)
      requires Tracks() && FirstTaken()
      modifies this`stages, wire`log, wire`faulted
      ensures Once() && r != Err(NoSession)
      ensures (old(wire.faulted) ==> wire.faulted) && (r.Err? ==> wire.faulted)
      ensures r.Ok? ==> Tracks() && FirstTaken() && Heard(wire.log) == old(Heard(wire.log))
      ensures r.Ok? ==> stages == WithSent(old(stages))
    {
      r := Ok(());
      WithSentInSteps(stages);
      if {SessionSeen, AnswerSeen} <= stages && Activated !in stages {
        r := Activate();
        if r.Err? {
          return;
        }
      }
      if {SessionSeen, CameraSeen} <= stages && OptionsSent !in stages {
        r := SendOptions();
      }
    }

    method Activate() returns (r: Result<(), Error>)
      requires Tracks() && FirstTaken() && {SessionSeen, AnswerSeen} <= stages && Activated !in stages
      modifies this`stages, wire`log, wire`faulted
      ensures (old(wire.faulted) ==> wire.faulted) && (r.Err? ==> wire.faulted)
      ensures Once() && r != Err(NoSession) && FirstTaken() && Heard(wire.log) == old(Heard(wire.log))
      ensures r.Ok? ==> Tracks() && stages == old(stages) + {Activated}
    {
      assert SessionSeen in stages && AnswerSeen in stages;
      ActivationGrows(stages, wire.log);
      r := wire.Activate();
      if r.Ok? {
        stages := stages + {Activated};
      }
    }

    method SendOptions() returns (r: Result<(), Error>)
      requires Tracks() && FirstTaken() && {SessionSeen, CameraSeen} <= stages && OptionsSent !in stages
      modifies this`stages, wire`log, wire`faulted
      ensures (old(wire.faulted) ==> wire.faulted) && (r.Err? ==> wire.faulted)
      ensures Once() && r != Err(NoSession) && FirstTaken() && Heard(wire.log) == old(Heard(wire.log))
      ensures r.Ok? ==> Tracks() && stages == old(stages) + {OptionsSent}
    {
      assert SessionSeen in stages && CameraSeen in stages;
      SummaryGrows(stages, wire.log, CameraOptionsSent);
      r := wire.CameraOptions();
      if r.Ok? {
        stages := stages + {OptionsSent};
      }
    }
  }
}
