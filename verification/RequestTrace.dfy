/**
 What a Ring client does, in order: session-file writes, token refreshes and Ring API requests. The
 monitor reads such a trace and says which next events are safe; the lemmas say what safety means for
 a whole trace.
 */
module RequestTrace {
  import opened Wrappers

  const REAUTH_RETRY := 15 * 60

  datatype Call =
    | SessionRegistration
    | PushDevice(token: string, legacy: bool)  // the device record, in the app's format or the older one
    | Discovery
    | StreamTicket
    | Operation(name: string)

  /** A Ring API answer: none, or a status with a body that could be read or not. */
  datatype Reply = NoAnswer | Answer(status: nat, readable: bool)

  /** How Ring answers a refresh. */
  datatype RefreshReply =
    | NoReply
    | Failed(status: nat, invalidGrant: bool)   // an error status, with the OAuth code of its body
    | Unreadable                                // the body could not be read
    | Invalid                                   // the body is not a valid grant
    | Granted(access: string, refresh: string, expiresIn: nat)

  datatype Event =
    | Persisted(token: string)                 // the session file was replaced
    | PersistFailed                            // an error was reported; the file may hold either token
    | RefreshSent(token: string, at: int)      // the refresh token was presented
    | RefreshAnswered(answer: RefreshReply, at: int)
    | TokenAccepted(token: string)             // Ring answered with the next refresh token
    | Sent(call: Call)                         // a Ring API request left under the state lock
    | Answered(reply: Reply)                   // the answer to the request before
    | RecordSet(token: string)                 // Ring's device record now carries this push token
    | RecordDropped                            // a new session record dropped the push token
    | RestoreFailed                            // the push token could not be restored; only logged
    | SessionUnconfirmed                       // a registration failed after Ring had made the session record

  datatype Monitor = Monitor(
    newest: string,            // the newest refresh token Ring handed out and we accepted
    stored: string,            // the token of the last successful write
    blocked: bool,             // a write failed and none has succeeded since
    mutedUntil: Option<int>,   // a rejected token may not be presented before this
    clock: Option<int>)        // newest time stamp so far

  function After(m: Monitor, e: Event): Monitor {
    match e
    case Persisted(token) => m.(stored := token, blocked := false)
    case PersistFailed => m.(blocked := true)
    case RefreshSent(_, at) => m.(clock := MaxOption(m.clock, at))
    case RefreshAnswered(answer, at) =>
      var rejected := answer.Failed? && (answer.status == 401 || (answer.status == 400 && answer.invalidGrant));
      m.(mutedUntil := if rejected then MaxOption(m.mutedUntil, at + REAUTH_RETRY) else m.mutedUntil,
         clock := MaxOption(m.clock, at))
    case TokenAccepted(token) => m.(newest := token)
    case _ => m
  }

  /** A request may leave only while the newest accepted token is safely on disk. */
  predicate Durable(m: Monitor) {
    m.stored == m.newest && !m.blocked
  }

  predicate Allowed(m: Monitor, e: Event) {
    match e
    case RefreshSent(token, at) =>
      && Durable(m) && token == m.newest
      && (m.mutedUntil.Some? ==> at >= m.mutedUntil.value)
      && (m.clock.Some? ==> at >= m.clock.value)
    case RefreshAnswered(_, at) => m.clock.Some? ==> at >= m.clock.value
    case Sent(_) => Durable(m)
    case _ => true
  }

  function Observed(loaded: string, trace: seq<Event>): Monitor {
    if trace == [] then Monitor(loaded, loaded, false, None, None)
    else After(Observed(loaded, trace[..|trace| - 1]), trace[|trace| - 1])
  }

  predicate Safe(loaded: string, trace: seq<Event>) {
    trace != [] ==>
      && Safe(loaded, trace[..|trace| - 1])
      && Allowed(Observed(loaded, trace[..|trace| - 1]), trace[|trace| - 1])
  }

  /** The push token in Ring's device record, as far as the trace tells. */
  function RingRecord(trace: seq<Event>): Option<string> {
    if trace == [] then None
    else
      match trace[|trace| - 1]
      case RecordSet(token) => Some(token)
      case RecordDropped => None
      case _ => RingRecord(trace[..|trace| - 1])
  }

  lemma Snoc(loaded: string, trace: seq<Event>, e: Event)
    ensures Observed(loaded, trace + [e]) == After(Observed(loaded, trace), e)
    ensures Safe(loaded, trace + [e]) <==> Safe(loaded, trace) && Allowed(Observed(loaded, trace), e)
    ensures RingRecord(trace + [e]) ==
      match e case RecordSet(token) => Some(token) case RecordDropped => None case _ => RingRecord(trace)
  {
    assert (trace + [e])[..|trace|] == trace;
  }

  // ------------------------------------------------- reference notions, and what Safe gives

  /** The newest refresh token accepted within the trace, or the one loaded at the start. */
  function LastAccepted(loaded: string, trace: seq<Event>): string {
    if trace == [] then loaded
    else if trace[|trace| - 1].TokenAccepted? then trace[|trace| - 1].token
    else LastAccepted(loaded, trace[..|trace| - 1])
  }

  function LastPersisted(loaded: string, trace: seq<Event>): string {
    if trace == [] then loaded
    else if trace[|trace| - 1].Persisted? then trace[|trace| - 1].token
    else LastPersisted(loaded, trace[..|trace| - 1])
  }

  predicate IsRequest(e: Event) {
    e.Sent? || e.RefreshSent?
  }

  lemma {:induction false} SafePrefix(loaded: string, trace: seq<Event>, n: nat)
    requires Safe(loaded, trace) && n <= |trace|
    ensures Safe(loaded, trace[..n])
    ensures n < |trace| ==> Allowed(Observed(loaded, trace[..n]), trace[n])
  {
    if n == |trace| {
      assert trace[..n] == trace;
    } else {
      var front := trace[..|trace| - 1];
      if n < |front| {
        SafePrefix(loaded, front, n);
        assert front[..n] == trace[..n];
      } else {
        assert front == trace[..n];
      }
    }
  }

  lemma {:induction false} MonitorIsFaithful(loaded: string, trace: seq<Event>)
    ensures var m := Observed(loaded, trace);
            m.newest == LastAccepted(loaded, trace) && m.stored == LastPersisted(loaded, trace)
  {
    if trace != [] {
      MonitorIsFaithful(loaded, trace[..|trace| - 1]);
    }
  }

  /** At every point of the trace where a request leaves, the refresh token last written to disk is the
      newest one accepted; a refresh presents exactly that token. */
  lemma RequestsOnlyWhenDurable(loaded: string, trace: seq<Event>, n: nat)
    requires Safe(loaded, trace) && n < |trace| && IsRequest(trace[n])
    ensures LastPersisted(loaded, trace[..n]) == LastAccepted(loaded, trace[..n])
    ensures trace[n].RefreshSent? ==> trace[n].token == LastAccepted(loaded, trace[..n])
  {
    SafePrefix(loaded, trace, n);
    MonitorIsFaithful(loaded, trace[..n]);
  }

  lemma {:induction false} BlockedSince(loaded: string, trace: seq<Event>, i: nat)
    requires i < |trace| && trace[i].PersistFailed?
    requires forall k :: i < k < |trace| ==> !trace[k].Persisted?
    ensures Observed(loaded, trace).blocked
  {
    if i < |trace| - 1 {
      BlockedSince(loaded, trace[..|trace| - 1], i);
    }
  }

  /** A failed write blocks all vendor work until a write succeeds. */
  lemma FailedPersistBlocks(loaded: string, trace: seq<Event>, i: nat, j: nat)
    requires Safe(loaded, trace) && i < j < |trace| && trace[i].PersistFailed? && IsRequest(trace[j])
    ensures exists k :: i < k < j && trace[k].Persisted?
  {
    SafePrefix(loaded, trace, j);
    if forall k :: i < k < j ==> !trace[k].Persisted? {
      BlockedSince(loaded, trace[..j], i);
    }
  }

  /** Ring rejected the grant: 401, or 400 with `invalid_grant` (section 5.2 of RFC 6749). */
  predicate RejectsGrant(e: Event) {
    e.RefreshAnswered? && e.answer.Failed?
    && (e.answer.status == 401 || (e.answer.status == 400 && e.answer.invalidGrant))
  }

  lemma {:induction false} MutedSince(loaded: string, trace: seq<Event>, i: nat)
    requires i < |trace| && RejectsGrant(trace[i])
    ensures var m := Observed(loaded, trace); m.mutedUntil.Some? && m.mutedUntil.value >= trace[i].at + REAUTH_RETRY
  {
    if i < |trace| - 1 {
      MutedSince(loaded, trace[..|trace| - 1], i);
    }
  }

  /** After a rejection no refresh token is presented for 15 minutes. */
  lemma RejectedTokenRests(loaded: string, trace: seq<Event>, i: nat, j: nat)
    requires Safe(loaded, trace) && i < j < |trace| && trace[i].RefreshAnswered? && trace[j].RefreshSent?
    requires trace[i].answer.Failed?
    requires trace[i].answer.status == 401 || (trace[i].answer.status == 400 && trace[i].answer.invalidGrant)
    ensures trace[j].at >= trace[i].at + 900
  {
    SafePrefix(loaded, trace, j);
    MutedSince(loaded, trace[..j], i);
    assert trace[..j][i] == trace[i];
  }

  // ----------------------------------------------------------------- retry budget

  /** The request at `i` was itself answered with a 401. */
  predicate RefusedAt(trace: seq<Event>, i: nat) {
    i + 1 < |trace| && trace[i + 1].Answered? && trace[i + 1].reply.Answer? && trace[i + 1].reply.status == 401
  }

  /** Requests of one kind since position `from`: none, one, or two of which the first was answered with a 401. */
  predicate RetriedOnlyAfter401(trace: seq<Event>, from: nat, call: Call) {
    && (forall i, j, k :: from <= i < j < k < |trace| ==>
          !(trace[i] == Sent(call) && trace[j] == Sent(call) && trace[k] == Sent(call)))
    && (forall i, j :: from <= i < j < |trace| && trace[i] == Sent(call) && trace[j] == Sent(call) ==>
          RefusedAt(trace, i))
  }

  predicate SentTwice(trace: seq<Event>, from: nat, call: Call) {
    exists i, j :: from <= i < j < |trace| && trace[i] == Sent(call) && trace[j] == Sent(call)
  }

  /** Some request of this kind was answered with a 401. */
  predicate RefusedSince(trace: seq<Event>, from: nat, call: Call) {
    exists i :: from <= i < |trace| && trace[i] == Sent(call) && RefusedAt(trace, i)
  }

  predicate SentSince(trace: seq<Event>, from: nat, call: Call) {
    exists i :: from <= i < |trace| && trace[i] == Sent(call)
  }

  predicate AtMostOneSent(trace: seq<Event>, from: nat, call: Call) {
    forall i, j :: from <= i < j < |trace| && trace[i] == Sent(call) ==> trace[j] != Sent(call)
  }

  /** Every request of one kind sent since `from` was answered with a 401. */
  predicate AllRefused(trace: seq<Event>, from: nat, call: Call) {
    forall i :: from <= i < |trace| && trace[i] == Sent(call) ==> RefusedAt(trace, i)
  }

  /** Two attempts, the first of which was refused wherever it sent anything. */
  lemma TwoAttempts(first: seq<Event>, both: seq<Event>, from: nat, call: Call)
    requires from <= |first| && first <= both
    requires AtMostOneSent(first, from, call) && AllRefused(first, from, call) && AtMostOneSent(both, |first|, call)
    ensures RetriedOnlyAfter401(both, from, call)
  {
    assert forall x :: 0 <= x < |first| ==> first[x] == both[x];
    forall i, j | from <= i < j < |both| && both[i] == Sent(call) && both[j] == Sent(call)
      ensures i < |first| <= j && RefusedAt(both, i)
    {
      assert i < |first| <= j;
      assert RefusedAt(first, i);
    }
  }

  /** When the last request was not answered with a 401, the request was sent twice exactly if one was refused. */
  lemma TwiceExactlyAfter401(trace: seq<Event>, from: nat, call: Call)
    requires from + 1 < |trace| && trace[|trace| - 2] == Sent(call) && !RefusedAt(trace, |trace| - 2)
    requires trace[|trace| - 1].Answered? && RetriedOnlyAfter401(trace, from, call)
    ensures SentTwice(trace, from, call) <==> RefusedSince(trace, from, call)
  {
    if i, j :| from <= i < j < |trace| && trace[i] == Sent(call) && trace[j] == Sent(call) {
      assert RefusedAt(trace, i);
    }
    if i :| from <= i < |trace| && trace[i] == Sent(call) && RefusedAt(trace, i) {
      assert i < |trace| - 2;
    }
  }

  /** Two answers with a 401 since `from`. */
  predicate TwoRefusals(trace: seq<Event>, from: nat) {
    exists i, j :: from <= i < j < |trace| && Refusal(trace[i]) && Refusal(trace[j])
  }

  predicate Refusal(e: Event) {
    e.Answered? && e.reply.Answer? && e.reply.status == 401
  }
}
