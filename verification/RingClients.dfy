/**
 The account client: access-token refresh with a rotating refresh token, session registration, push
 token registration and the two-attempt request loops, all under one state lock.

 Replies, failures and the passage of time are chosen freely by the environment (`*`), so every
 contract here holds for every pattern of step failures.
 */
module RingClients {
  import opened Wrappers
  import opened RequestTrace

  const EXPIRY_MARGIN := 60
  const SESSION_LIFETIME := 12 * 60 * 60
  const RECORD_REPROBE := 24 * 60 * 60

  datatype Access = Access(value: string, validUntil: int)

  datatype Error = Transport | Rejected(status: nat) | ReauthRequired | Storage | Protocol

  type Outcome = Result<(), Error>

  const DONE: Outcome := Ok(())

  /** The request went through. */
  predicate Success(reply: Reply) {
    reply.Answer? && 200 <= reply.status <= 299 && reply.readable
  }

  predicate Unauthorized(reply: Reply) {
    reply.Answer? && reply.status == 401
  }

  function Checked(reply: Reply): Outcome {
    match reply
    case NoAnswer => Err(Transport)
    case Answer(status, readable) =>
      if status < 200 || status >= 300 then Err(Rejected(status))
      else if readable then DONE else Err(Transport)
  }

  /** A 4xx that refuses the record itself; 401 and 429 are not about the body. */
  predicate RecordRefused(o: Outcome) {
    o.Err? && o.error.Rejected? && 400 <= o.error.status < 500 && o.error.status != 401 && o.error.status != 429
  }

  /** The next scripted answer settles a push record: it is not the refusal that makes the client try the legacy one. */
  predicate Decisive(script: seq<Reply>) {
    script != [] && !RecordRefused(Checked(script[0]))
  }

  /** The next scripted answer fails it for good. */
  predicate Failing(script: seq<Reply>) {
    Decisive(script) && Checked(script[0]).Err?
  }

  predicate IsUnauthorized(o: Outcome) {
    o == Err(Rejected(401))
  }

  predicate Usable(access: Option<Access>, now: int) {
    access.Some? && access.value.validUntil > now + EXPIRY_MARGIN
  }

  predicate Pending(deadline: Option<int>, now: int) {
    deadline.Some? && deadline.value > now
  }

  predicate ValidToken(token: string) {
    32 <= |token| <= 4096 && forall i :: 0 <= i < |token| ==> '!' <= token[i] <= '~'
  }

  /** Every push record sent since `from` carries `token`. */
  ghost predicate RecordsCarry(trace: seq<Event>, from: nat, token: Option<string>) {
    forall i :: from <= i < |trace| && trace[i].Sent? && trace[i].call.PushDevice? ==>
      token == Some(trace[i].call.token)
  }

  /** The trace grew, but no Ring API request left and Ring's push record was not touched. */
  ghost predicate NothingSent(before: seq<Event>, after: seq<Event>) {
    && before <= after && RingRecord(after) == RingRecord(before)
    && forall i :: |before| <= i < |after| ==> !after[i].Sent?
  }

  /** Ring's record is what it was, or was set to `token`, or was dropped. */
  ghost predicate RecordStays(before: seq<Event>, after: seq<Event>, token: Option<string>) {
    RingRecord(after) == RingRecord(before) || RingRecord(after) == token || RingRecord(after) == None
  }

  /** An event after which Ring's record may lack the token that the client remembers. */
  predicate Loses(e: Event) {
    e.RestoreFailed? || e.SessionUnconfirmed?
  }

  /** No restore failed, and no session registration failed after Ring had carried it out. */
  ghost predicate NothingLost(before: seq<Event>, after: seq<Event>) {
    before <= after && forall i :: |before| <= i < |after| ==> !Loses(after[i])
  }

  /** Ring's record stays on `token` unless something was lost. */
  ghost predicate KeepsRecord(before: seq<Event>, after: seq<Event>, token: Option<string>) {
    RingRecord(before) == token && NothingLost(before, after) ==> RingRecord(after) == token
  }

  lemma KeepsTrans(a: seq<Event>, b: seq<Event>, c: seq<Event>, token: Option<string>)
    requires a <= b <= c && KeepsRecord(a, b, token) && KeepsRecord(b, c, token)
    ensures KeepsRecord(a, c, token)
  {
    assert forall i :: 0 <= i < |b| ==> b[i] == c[i];
  }

  lemma NothingLostSince(a: seq<Event>, b: seq<Event>, c: seq<Event>)
    requires a <= b <= c && NothingLost(a, c)
    ensures NothingLost(a, b) && NothingLost(b, c)
  {
    assert forall i :: 0 <= i < |b| ==> b[i] == c[i];
  }

  /** One request was added, and its answer. */
  ghost predicate JustSent(before: seq<Event>, after: seq<Event>, call: Call, reply: Reply) {
    after == before + [Sent(call), Answered(reply)]
  }

  /** The last request was `call`, and it went through. */
  ghost predicate EndsWith(trace: seq<Event>, from: nat, call: Call) {
    && |trace| >= from + 2 && trace[|trace| - 2] == Sent(call)
    && trace[|trace| - 1].Answered? && Success(trace[|trace| - 1].reply)
  }

  predicate Quiet(e: Event) {
    !e.Sent? || e.call.SessionRegistration? || e.call.PushDevice?
  }

  /** Only session and push-record requests were added. */
  ghost predicate Background(before: seq<Event>, after: seq<Event>) {
    before <= after && forall i :: |before| <= i < |after| ==> Quiet(after[i])
  }

  /** What a whole request may have sent: at most two, the second only because the first was answered with a 401. */
  ghost predicate Requested(before: seq<Event>, after: seq<Event>, call: Call, r: Outcome) {
    && before <= after && RetriedOnlyAfter401(after, |before|, call)
    && (r.Ok? ==> EndsWith(after, |before|, call))
    && (r.Ok? ==> (SentTwice(after, |before|, call) <==> RefusedSince(after, |before|, call)))
  }

  /** The first attempt of a request, if it sent anything, was answered with a 401. */
  ghost predicate RefusedSoFar(before: seq<Event>, after: seq<Event>, call: Call, token: Option<string>) {
    && before <= after && RecordsCarry(after, |before|, token) && RecordStays(before, after, token)
    && AtMostOneSent(after, |before|, call) && AllRefused(after, |before|, call) && KeepsRecord(before, after, token)
  }

  lemma LastAttempt(start: seq<Event>, first: seq<Event>, both: seq<Event>, call: Call, token: Option<string>,
                    r: Outcome)
    requires RefusedSoFar(start, first, call, token) && first <= both
    requires RecordsCarry(both, |first|, token) && RecordStays(first, both, token) && AtMostOneSent(both, |first|, call)
    requires KeepsRecord(first, both, token)
    requires r.Ok? ==> EndsWith(both, |first|, call)
    ensures RecordsCarry(both, |start|, token) && RecordStays(start, both, token)
    ensures Requested(start, both, call, r)
    ensures KeepsRecord(start, both, token)
    ensures start == first ==> !SentTwice(both, |start|, call)
    ensures SentSince(first, |start|, call) && SentSince(both, |first|, call) ==> SentTwice(both, |start|, call)
  {
    TwoAttempts(first, both, |start|, call);
    assert forall i :: 0 <= i < |first| ==> first[i] == both[i];
    KeepsTrans(start, first, both, token);
    if r.Ok? {
      TwiceExactlyAfter401(both, |start|, call);
    }
  }

  /** Only session and push-record requests with `token` were added. */
  lemma QuietTail(before: seq<Event>, tail: seq<Event>, token: Option<string>)
    requires forall e :: e in tail ==> Quiet(e)
    requires forall e :: e in tail && e.Sent? && e.call.PushDevice? ==> token == Some(e.call.token)
    ensures var after := before + tail;
            Background(before, after) && RecordsCarry(after, |before|, token)
  {
    var after := before + tail;
    assert forall i :: |before| <= i < |after| ==> after[i] == tail[i - |before|] && after[i] in tail;
  }

  /** One push record was sent, and maybe applied. */
  lemma DeviceTail(before: seq<Event>, sent: seq<Event>, after: seq<Event>, token: string, legacy: bool, reply: Reply)
    requires JustSent(before, sent, PushDevice(token, legacy), reply)
    requires after == sent || after == sent + [RecordSet(token)]
    ensures Background(before, after) && RecordsCarry(after, |before|, Some(token)) && NothingLost(before, after)
    ensures OneRecord(before, after, token, legacy, reply) && (Refusal(Answered(reply)) ==> OneRefusal(before, after))
  {
    assert after[|before| + 1] == Answered(reply);
    assert sent[|before|] == Sent(PushDevice(token, legacy)) && sent[|before| + 1] == Answered(reply);
    assert forall i :: |before| < i < |after| ==> after[i] == Answered(reply) || after[i] == RecordSet(token);
  }

  /** Exactly one push record was sent, with this answer. */
  ghost predicate OneRecord(before: seq<Event>, after: seq<Event>, token: string, legacy: bool, reply: Reply) {
    && |before| + 2 <= |after| <= |before| + 3 && before <= after
    && after[|before|] == Sent(PushDevice(token, legacy)) && after[|before| + 1] == Answered(reply)
    && (|after| == |before| + 3 ==> after[|before| + 2] == RecordSet(token))
  }

  /** An answer that refuses the record itself; 401 and 429 are not about the body. */
  predicate RefusesRecord(reply: Reply) {
    reply.Answer? && 400 <= reply.status <= 499 && reply.status != 401 && reply.status != 429
  }

  /** How the device record is sent: the older format while it is remembered to be needed; else the app's, and if that
      is refused the older one, which is then remembered for a day. */
  ghost predicate Patched(before: seq<Event>, after: seq<Event>, token: string, from: int, to: int,
                          legacyBefore: Option<int>, legacyAfter: Option<int>, r: Outcome)
  {
    exists first: Reply, second: Reply, mid: seq<Event> ::
      || (&& legacyBefore.Some? && legacyBefore.value > from
          && OneRecord(before, after, token, true, first) && legacyAfter == legacyBefore && (r.Ok? <==> Success(first)))
      || (&& (legacyBefore.Some? ==> legacyBefore.value <= to)
          && OneRecord(before, after, token, false, first) && !RefusesRecord(first)
          && (r.Ok? <==> Success(first)) && legacyAfter == if r.Ok? then None else legacyBefore)
      || (&& (legacyBefore.Some? ==> legacyBefore.value <= to)
          && OneRecord(before, mid, token, false, first) && RefusesRecord(first)
          && OneRecord(mid, after, token, true, second) && (r.Ok? <==> Success(second))
          && legacyAfter.Some? && from + 86400 <= legacyAfter.value <= to + 86400)
  }

  lemma LossInTail(before: seq<Event>, tail: seq<Event>)
    ensures var after := before + tail;
            NothingLost(before, after) <==> forall k :: 0 <= k < |tail| ==> !Loses(tail[k])
  {
    var after := before + tail;
    assert forall i :: |before| <= i < |after| ==> after[i] == tail[i - |before|];
    forall k | 0 <= k < |tail| && NothingLost(before, after) ensures !Loses(tail[k]) {
      assert after[|before| + k] == tail[k];
    }
  }

  /** One request after a connection that sent nothing of its kind. */
  lemma CallTail(before: seq<Event>, ready: seq<Event>, after: seq<Event>, call: Call, reply: Reply,
                 token: Option<string>)
    requires Background(before, ready) && RecordsCarry(ready, |before|, token) && !Quiet(Sent(call))
    requires KeepsRecord(before, ready, token) && JustSent(ready, after, call, reply)
    requires RingRecord(after) == RingRecord(ready)
    ensures RecordsCarry(after, |before|, token) && KeepsRecord(before, after, token)
    ensures before <= after && AtMostOneSent(after, |before|, call) && SentSince(after, |before|, call)
    ensures reply.Answer? && reply.status == 401 ==> AllRefused(after, |before|, call)
    ensures |after| >= |before| + 2 && after[|after| - 2] == Sent(call) && after[|after| - 1] == Answered(reply)
  {
    KeepsTrans(before, ready, after, token);
    assert after[|ready|] == Sent(call) && after[|ready| + 1] == Answered(reply);
    assert forall i :: 0 <= i < |ready| ==> after[i] == ready[i];
    assert reply.Answer? && reply.status == 401 ==> RefusedAt(after, |ready|);
  }

  /** What a refresh does with the answer it got: only a grant is taken over, only a rejected grant starts a rest. */
  ghost predicate Refreshed(before: seq<Event>, after: seq<Event>, r: Outcome, restBefore: Option<int>,
                            rest: Option<int>)
  {
    && before <= after && |after| >= |before| + 2
    && after[|before|].RefreshSent? && after[|before| + 1].RefreshAnswered?
    && var answer, at := after[|before| + 1].answer, after[|before| + 1].at;
       match answer
       case NoReply => r == Err(Transport) && rest == restBefore && |after| == |before| + 2
       case Unreadable => r == Err(Transport) && rest == restBefore && |after| == |before| + 2
       case Invalid => r == Err(Protocol) && rest == None && |after| == |before| + 2
       case Failed(status, invalidGrant) =>
         && |after| == |before| + 2
         && if status == 401 || (status == 400 && invalidGrant) then r == Err(ReauthRequired) && rest == Some(at + 900)
            else r == Err(Rejected(status)) && rest == restBefore
       case Granted(_, refresh, _) =>
         && |after| == |before| + 4 && after[|before| + 2] == TokenAccepted(refresh) && rest == None
         && (r.Ok? <==> after[|before| + 3] == Persisted(refresh)) && (r.Err? ==> r == Err(Storage))
  }

  /** Some request since `before` was answered with a 401. */
  ghost predicate OneRefusal(before: seq<Event>, after: seq<Event>) {
    exists i :: |before| <= i < |after| && Refusal(after[i])
  }

  ghost predicate NoRefresh(before: seq<Event>, after: seq<Event>) {
    before <= after && forall i :: |before| <= i < |after| ==> !after[i].RefreshSent?
  }

  /** Nothing was presented, or after `at` events the last thing done was a refresh, settled by its answer. */
  ghost predicate Authenticates(before: seq<Event>, after: seq<Event>, r: Outcome, restBefore: Option<int>,
                                rest: Option<int>, at: Option<nat>)
  {
    match at
    case None => NoRefresh(before, after) && rest == restBefore
    case Some(k) => |before| <= k < |after| && NoRefresh(before, after[..k]) && before <= after && after[k].RefreshSent?
                    && Refreshed(after[..k], after, r, restBefore, rest)
  }

  lemma WrittenThenRefreshed(start: seq<Event>, before: seq<Event>, after: seq<Event>, r: Outcome,
                             restBefore: Option<int>, rest: Option<int>)
    requires NoRefresh(start, before) && Refreshed(before, after, r, restBefore, rest)
    ensures Authenticates(start, after, r, restBefore, rest, Some(|before|))
  {
    assert after[..|before|] == before;
  }

  lemma RenewedAfter(start: seq<Event>, before: seq<Event>, after: seq<Event>, r: Outcome, restBefore: Option<int>,
                     rest: Option<int>, at: Option<nat>)
    requires NoRefresh(start, before) && Authenticates(before, after, r, restBefore, rest, at) && before <= after
    ensures Authenticates(start, after, r, restBefore, rest, at)
  {
    assert forall i :: 0 <= i < |before| ==> before[i] == after[i];
  }

  lemma PatchedOnce(before: seq<Event>, after: seq<Event>, token: string, from: int, to: int, legacyBefore: Option<int>,
                    legacyAfter: Option<int>, r: Outcome, legacy: bool, reply: Reply)
    requires OneRecord(before, after, token, legacy, reply) && (r.Ok? <==> Success(reply))
    requires if legacy then legacyBefore.Some? && legacyBefore.value > from && legacyAfter == legacyBefore
             else (legacyBefore.Some? ==> legacyBefore.value <= to) && !RefusesRecord(reply)
                  && legacyAfter == if r.Ok? then None else legacyBefore
    ensures Patched(before, after, token, from, to, legacyBefore, legacyAfter, r)
  {
  }

  lemma PatchedTwice(before: seq<Event>, mid: seq<Event>, after: seq<Event>, token: string, from: int, to: int,
                     legacyBefore: Option<int>, legacyAfter: Option<int>, r: Outcome, first: Reply, second: Reply)
    requires OneRecord(before, mid, token, false, first) && RefusesRecord(first)
    requires OneRecord(mid, after, token, true, second) && (r.Ok? <==> Success(second))
    requires legacyBefore.Some? ==> legacyBefore.value <= to
    requires legacyAfter.Some? && from + 86400 <= legacyAfter.value <= to + 86400
    ensures Patched(before, after, token, from, to, legacyBefore, legacyAfter, r)
  {
  }

  lemma RefusedLater(start: seq<Event>, mid: seq<Event>, after: seq<Event>)
    requires start <= mid <= after && TwoRefusals(after, |mid|)
    ensures TwoRefusals(after, |start|)
  {
  }

  lemma RefusedTwice(start: seq<Event>, mid: seq<Event>, after: seq<Event>)
    requires start <= mid <= after && OneRefusal(start, mid) && OneRefusal(mid, after)
    ensures TwoRefusals(after, |start|)
  {
    var i :| |start| <= i < |mid| && Refusal(mid[i]);
    var j :| |mid| <= j < |after| && Refusal(after[j]);
    assert after[i] == mid[i];
  }

  lemma BothQuiet(a: seq<Event>, b: seq<Event>, c: seq<Event>, token: Option<string>)
    requires Background(a, b) && Background(b, c) && NothingLost(a, b) && NothingLost(b, c)
    requires RecordsCarry(b, |a|, token) && RecordsCarry(c, |b|, token)
    ensures Background(a, c) && NothingLost(a, c) && RecordsCarry(c, |a|, token)
  {
    assert forall i :: 0 <= i < |b| ==> b[i] == c[i];
  }

  /** What an answer means for the caller. */
  lemma CheckedMeans(reply: Reply)
    ensures Checked(reply).Ok? <==> Success(reply)
    ensures forall status: nat :: Checked(reply) == Err(Rejected(status)) <==>
              reply.Answer? && reply.status == status && !(200 <= status <= 299)
    ensures reply.NoAnswer? || (reply.Answer? && 200 <= reply.status <= 299 && !reply.readable) ==>
              Checked(reply) == Err(Transport)
  {
  }

  function SubscriptionOf(id: string): string {
    "/doorbots/" + id + "/subscribe"
  }

  /** Every one of these Intercoms was subscribed. */
  ghost predicate Subscribed(before: seq<Event>, after: seq<Event>, ids: seq<string>) {
    forall i :: 0 <= i < |ids| ==> SentSince(after, |before|, Operation(SubscriptionOf(ids[i])))
  }

  lemma SubscribedMore(start: seq<Event>, before: seq<Event>, after: seq<Event>, ids: seq<string>, id: string)
    requires start <= before <= after && Subscribed(start, before, ids)
    requires SentSince(after, |before|, Operation(SubscriptionOf(id)))
    ensures Subscribed(start, after, ids + [id])
  {
    assert forall k :: 0 <= k < |before| ==> before[k] == after[k];
    forall i | 0 <= i < |ids + [id]| ensures SentSince(after, |start|, Operation(SubscriptionOf((ids + [id])[i]))) {
      if i < |ids| {
        assert SentSince(before, |start|, Operation(SubscriptionOf(ids[i])));
      }
    }
  }

  class RingClient {
    var now: int
    var disk: string                       // refresh token in the session file
    var memory: string                     // refresh token in the client
    var access: Option<Access>
    var registeredUntil: Option<int>
    var rotationPending: bool
    var pushToken: Option<string>
    var legacyRecordUntil: Option<int>
    var reauthUntil: Option<int>
    const calm: bool                       // time stands still; writes, refreshes and registrations succeed
    var answers: seq<Reply>                // to the next operations; free once they run out
    var recordAnswers: seq<Reply>          // to the next push records; free once they run out
    ghost const loaded: string
    ghost var trace: seq<Event>

    ghost predicate Valid()
      reads this
    {
      var m := Observed(loaded, trace);
      && Safe(loaded, trace)
      && m.newest == memory
      && (!rotationPending ==> disk == memory && m.stored == memory)
      && (m.blocked ==> rotationPending || !Usable(access, now))
      && (m.mutedUntil.Some? && m.mutedUntil.value > now ==>
            reauthUntil.Some? && reauthUntil.value >= m.mutedUntil.value)
      && (m.clock.Some? ==> m.clock.value <= now)
    }

    /** Authenticated: a request may be sent. */
    ghost predicate Ready()
      reads this
    {
      Valid() && !rotationPending && !Observed(loaded, trace).blocked && access.Some?
    }

    ghost predicate Passes(before: int)
      reads this`now
    {
      now >= before && (calm ==> now == before)
    }

    constructor (now: int, disk: string, calm: bool, answers: seq<Reply>, recordAnswers: seq<Reply>)
      ensures Valid() && trace == [] && loaded == disk == this.disk && pushToken.None? && reauthUntil.None?
      ensures this.calm == calm && this.answers == answers && this.recordAnswers == recordAnswers
      ensures registeredUntil.None? && this.now == now
    {
      this.calm, this.answers, this.recordAnswers := calm, answers, recordAnswers;
      this.now, this.disk, memory := now, disk, disk;
      access, registeredUntil, rotationPending := None, None, false;
      pushToken, legacyRecordUntil, reauthUntil := None, None, None;
      loaded, trace := disk, [];
    }

    ghost method Record(e: Event)
      requires Safe(loaded, trace) && Allowed(Observed(loaded, trace), e)
      modifies this`trace
      ensures trace == old(trace) + [e]
      ensures Safe(loaded, trace) && Observed(loaded, trace) == After(Observed(loaded, old(trace)), e)
      ensures RingRecord(trace) ==
        match e case RecordSet(token) => Some(token) case RecordDropped => None case _ => RingRecord(old(trace))
    {
      Snoc(loaded, trace, e);
      trace := trace + [e];
    }

    /** The monotone clock: time passes between any two reads. */
    method Instant() returns (t: int)
      modifies this`now
      ensures t == now >= old(now) && (calm ==> now == old(now))
    {
      var later: int := *;
      if later > now && !calm {
        now := later;
      }
      t := now;
    }

    /** Atomic replacement; when an error is reported the rename may already have happened. */
    method Persist() returns (ok: bool)
      requires Safe(loaded, trace)
      modifies this`disk, this`trace
      ensures trace == old(trace) + [if ok then Persisted(memory) else PersistFailed]
      ensures Safe(loaded, trace) && Observed(loaded, trace) == After(Observed(loaded, old(trace)), trace[|old(trace)|])
      ensures RingRecord(trace) == RingRecord(old(trace))
      ensures ok ==> disk == memory
      ensures calm ==> ok
      ensures !ok ==> disk == old(disk) || disk == memory
    {
      ok := *;
      ok := ok || calm;
      var renamed: bool := *;
      if ok || renamed {
        disk := memory;
      }
      Record(if ok then Persisted(memory) else PersistFailed);
    }

    /** `at` tells when a refresh began, if there was one. */
    method EnsureAuthenticated() returns (r: Outcome, ghost at: Option<nat>)
      requires Valid()
      modifies this`now, this`disk, this`memory, this`access, this`rotationPending, this`reauthUntil, this`trace
      ensures Valid() && NothingSent(old(trace), trace)
      ensures calm && !Pending(old(reauthUntil), old(now)) ==> r.Ok? && !Pending(reauthUntil, now)
      ensures Passes(old(now))
      ensures r.Ok? ==> Ready()
      ensures Authenticates(old(trace), trace, r, old(reauthUntil), reauthUntil, at)
      ensures !old(rotationPending) && old(access).Some? && old(access).value.validUntil > now + 60 ==>
        r.Ok? && trace == old(trace)
      ensures r.Ok? && (old(access).None? || old(access).value.validUntil <= old(now) + 60) ==> at.Some?
      ensures old(reauthUntil).Some? && old(reauthUntil).value > now ==> at.None?
      ensures r == Err(ReauthRequired) && at.None? ==> old(reauthUntil).Some? && old(reauthUntil).value > old(now)
      ensures !IsUnauthorized(r)
    {
      at := None;
      r := CatchUp();
      if r.Err? {
        return;
      }
      ghost var before := trace;
      r, at := Proceed();
      RenewedAfter(old(trace), before, trace, r, old(reauthUntil), reauthUntil, at);
    }

    /** Uses the access token while it is good for another minute, and renews it otherwise. */
    method Proceed() returns (r: Outcome, ghost at: Option<nat>)
      requires Valid() && !rotationPending
      modifies this`now, this`disk, this`memory, this`access, this`rotationPending, this`reauthUntil, this`trace
      ensures Valid() && NothingSent(old(trace), trace)
      ensures calm && !Pending(old(reauthUntil), old(now)) ==> r.Ok? && !Pending(reauthUntil, now)
      ensures Passes(old(now))
      ensures r.Ok? ==> Ready()
      ensures Authenticates(old(trace), trace, r, old(reauthUntil), reauthUntil, at)
      ensures old(access).Some? && old(access).value.validUntil > now + 60 ==> r.Ok? && trace == old(trace)
      ensures r.Ok? && (old(access).None? || old(access).value.validUntil <= old(now) + 60) ==> at.Some?
      ensures old(reauthUntil).Some? && old(reauthUntil).value > now ==> at.None?
      ensures r == Err(ReauthRequired) && at.None? ==> old(reauthUntil).Some? && old(reauthUntil).value > old(now)
      ensures !IsUnauthorized(r)
    {
      var t := Instant();
      if access.Some? && access.value.validUntil > t + EXPIRY_MARGIN {
        return DONE, None;
      }
      r, at := Renew();
    }

    /** Refreshes, unless a rejected token still rests; the current token is written first. */
    method Renew() returns (r: Outcome, ghost at: Option<nat>)
      requires Valid() && !rotationPending && !Usable(access, now)
      modifies this`now, this`disk, this`memory, this`access, this`rotationPending, this`reauthUntil, this`trace
      ensures Valid() && NothingSent(old(trace), trace)
      ensures Passes(old(now))
      ensures calm && !Pending(old(reauthUntil), old(now)) ==> r.Ok? && !Pending(reauthUntil, now)
      ensures r.Ok? ==> Ready() && at.Some?
      ensures Authenticates(old(trace), trace, r, old(reauthUntil), reauthUntil, at)
      ensures old(reauthUntil).Some? && old(reauthUntil).value > now ==> at.None?
      ensures r == Err(ReauthRequired) && at.None? ==> old(reauthUntil).Some? && old(reauthUntil).value > old(now)
      ensures !IsUnauthorized(r)
    {
      var t := Instant();
      if reauthUntil.Some? && reauthUntil.value > t {
        return Err(ReauthRequired), None;
      }
      var ok := WriteCurrent();
      if !ok {
        return Err(Storage), None;
      }
      ghost var before := trace;
      r := Refresh();
      at := Some(|before|);
      WrittenThenRefreshed(old(trace), before, trace, r, old(reauthUntil), reauthUntil);
    }

    /** The token about to be presented is written first. */
    method WriteCurrent() returns (ok: bool)
      requires Valid() && !rotationPending && !Usable(access, now)
      modifies this`disk, this`trace
      ensures Valid() && NothingSent(old(trace), trace)
      ensures ok ==> !Observed(loaded, trace).blocked
      ensures calm ==> ok
      ensures NoRefresh(old(trace), trace)
    {
      ok := Persist();
    }

    /** A rotated token that could not be written earlier is written first. */
    method CatchUp() returns (r: Outcome)
      requires Valid()
      modifies this`disk, this`rotationPending, this`trace
      ensures Valid() && NothingSent(old(trace), trace) && NoRefresh(old(trace), trace)
      ensures calm ==> r.Ok?
      ensures r.Ok? ==> !rotationPending
      ensures !old(rotationPending) ==> r.Ok? && trace == old(trace)
      ensures old(rotationPending) && r.Ok? ==> !Observed(loaded, trace).blocked
      ensures !IsUnauthorized(r) && r != Err(ReauthRequired)
      ensures old(rotationPending) ==>
        trace == old(trace) + [if r.Ok? then Persisted(memory) else PersistFailed] && (r.Err? ==> r == Err(Storage))
    {
      if rotationPending {
        var ok := Persist();
        if !ok {
          return Err(Storage);
        }
        rotationPending := false;
      }
      r := DONE;
    }

    /** Presents the refresh token and takes over the rotated one. */
    method Refresh() returns (r: Outcome)
      requires Valid() && !rotationPending && !Observed(loaded, trace).blocked
      requires !Pending(reauthUntil, now)
      modifies this`now, this`disk, this`memory, this`access, this`rotationPending, this`reauthUntil, this`trace
      ensures Valid() && NothingSent(old(trace), trace)
      ensures Passes(old(now))
      ensures calm ==> r.Ok? && reauthUntil.None?
      ensures r.Ok? ==> Ready()
      ensures Refreshed(old(trace), trace, r, old(reauthUntil), reauthUntil)
      ensures !IsUnauthorized(r)
    {
      var reply: RefreshReply := *;
      if calm {
        reply := Granted("", memory, 0);
      }
      Present(reply);
      match reply
      case NoReply => r := Err(Transport);
      case Failed(status, invalidGrant) =>
        if status == 401 {
          reauthUntil := Some(now + REAUTH_RETRY);
          r := Err(ReauthRequired);
        } else if status == 400 && invalidGrant {
          reauthUntil := Some(now + REAUTH_RETRY);
          r := Err(ReauthRequired);
        } else {
          r := Err(Rejected(status));
        }
      case Unreadable => r := Err(Transport);
      case Invalid =>
        reauthUntil := None;
        r := Err(Protocol);
      case Granted(value, refresh, expiresIn) =>
        reauthUntil := None;
        r := AcceptOauth(value, refresh, expiresIn);
    }

    /** All of `Valid` but that a rejection just answered has been noted. */
    ghost predicate Presented(answer: RefreshReply)
      reads this
    {
      var m := Observed(loaded, trace);
      && Safe(loaded, trace) && m.newest == memory && !rotationPending && disk == memory && m.stored == memory
      && !m.blocked && m.clock.Some? && m.clock.value == now
      && if RejectsGrant(RefreshAnswered(answer, now))
         then m.mutedUntil.Some? && m.mutedUntil.value == now + REAUTH_RETRY
         else m.mutedUntil.Some? ==> m.mutedUntil.value <= now
    }

    ghost predicate CanAccept()
      reads this
    {
      && Valid() && !rotationPending && !Observed(loaded, trace).blocked
      && (Observed(loaded, trace).mutedUntil.Some? ==> Observed(loaded, trace).mutedUntil.value <= now)
    }

    /** The refresh token goes out and is answered. */
    method Present(answer: RefreshReply)
      requires Valid() && !rotationPending && !Observed(loaded, trace).blocked && !Pending(reauthUntil, now)
      modifies this`now, this`trace
      ensures Passes(old(now))
      ensures Presented(answer) && NothingSent(old(trace), trace)
      ensures trace == old(trace) + [RefreshSent(memory, old(now)), RefreshAnswered(answer, now)]
    {
      Record(RefreshSent(memory, now));
      var _ := Instant();
      Record(RefreshAnswered(answer, now));
    }

    method AcceptOauth(value: string, refresh: string, expiresIn: nat) returns (r: Outcome)
      requires CanAccept()
      modifies this`now, this`disk, this`memory, this`access, this`rotationPending, this`trace
      ensures Valid() && NothingSent(old(trace), trace)
      ensures Passes(old(now))
      ensures calm ==> r.Ok?
      ensures r.Ok? ==> Ready() && memory == refresh
      ensures trace == old(trace) + [TokenAccepted(refresh), if r.Ok? then Persisted(refresh) else PersistFailed]
      ensures r.Err? ==> r == Err(Storage)
      ensures access.Some? && access.value.value == value
              && old(now) + expiresIn <= access.value.validUntil <= now + expiresIn
    {
      Adopt(value, refresh, expiresIn);
      r := CatchUp();
    }

    /** Takes the new tokens over; the rotated one is not written yet. */
    method Adopt(value: string, refresh: string, expiresIn: nat)
      requires CanAccept()
      modifies this`now, this`memory, this`access, this`rotationPending, this`trace
      ensures Valid() && NothingSent(old(trace), trace) && Passes(old(now))
      ensures rotationPending && memory == refresh && trace == old(trace) + [TokenAccepted(refresh)]
      ensures access.Some? && access.value.value == value
              && old(now) + expiresIn <= access.value.validUntil <= now + expiresIn
    {
      var t := Instant();
      access := Some(Access(value, t + expiresIn));
      memory := refresh;
      rotationPending := true;
      Record(TokenAccepted(refresh));
    }

    // ------------------------------------------------------------- requests

    /** Sends a request that will be answered with `reply`. */
    method Send(call: Call, reply: Reply)
      requires Ready()
      modifies this`now, this`trace
      ensures Ready() && Passes(old(now)) && RingRecord(trace) == RingRecord(old(trace))
      ensures JustSent(old(trace), trace, call, reply)
    {
      Record(Sent(call));
      var _ := Instant();
      Record(Answered(reply));
    }

    /** How Ring answers a registration. */
    method QuietReply() returns (reply: Reply)
      ensures calm ==> Checked(reply).Ok?
    {
      reply := *;
      if calm {
        reply := Answer(200, true);
      }
    }

    /** How Ring answers a push record. */
    method RecordReply() returns (reply: Reply)
      modifies this`recordAnswers
      ensures calm && old(recordAnswers) == [] ==> Checked(reply).Ok? && recordAnswers == []
      ensures old(recordAnswers) != [] ==> reply == old(recordAnswers)[0] && recordAnswers == old(recordAnswers)[1..]
    {
      if recordAnswers == [] {
        reply := QuietReply();
      } else {
        reply, recordAnswers := recordAnswers[0], recordAnswers[1..];
      }
    }

    /** One PATCH of the device record. Ring may have applied it although an error is reported. */
    method SendDevice(token: string, legacy: bool) returns (r: Outcome, ghost reply: Reply)
      requires Ready() && pushToken == Some(token)
      modifies this`now, this`trace, this`recordAnswers
      ensures Ready() && Background(old(trace), trace) && RecordsCarry(trace, |old(trace)|, pushToken)
      ensures NothingLost(old(trace), trace) && OneRecord(old(trace), trace, token, legacy, reply)
      ensures r == Checked(reply) && (r.Ok? <==> Success(reply))
      ensures IsUnauthorized(r) ==> OneRefusal(old(trace), trace)
      ensures RecordStays(old(trace), trace, pushToken) && Passes(old(now))
      ensures calm && old(recordAnswers) == [] ==> r.Ok? && recordAnswers == []
      ensures old(recordAnswers) != [] ==> reply == old(recordAnswers)[0] && recordAnswers == old(recordAnswers)[1..]
      ensures calm && r.Err? ==> RingRecord(trace) == RingRecord(old(trace))
      ensures r.Ok? ==> RingRecord(trace) == pushToken
    {
      var answer := RecordReply();
      reply := answer;
      Send(PushDevice(token, legacy), answer);
      r := Checked(answer);
      ghost var sent := trace;
      var applied: bool := *;
      if r.Ok? || (applied && !calm) {
        Record(RecordSet(token));
      }
      DeviceTail(old(trace), sent, trace, token, legacy, reply);
    }

    /** Sends the remembered token, falling back to the legacy record when the app format is refused. */
    method PatchPushDevice() returns (r: Outcome)
      requires Ready()
      modifies this`now, this`trace, this`legacyRecordUntil, this`recordAnswers
      ensures Ready() && Background(old(trace), trace) && RecordsCarry(trace, |old(trace)|, pushToken)
      ensures NothingLost(old(trace), trace)
      ensures RecordStays(old(trace), trace, pushToken) && Passes(old(now))
      ensures calm && old(recordAnswers) == [] ==> r.Ok? && recordAnswers == []
      ensures pushToken.Some? && Decisive(old(recordAnswers)) ==>
        r == Checked(old(recordAnswers)[0]) && recordAnswers == old(recordAnswers)[1..]
      ensures calm && r.Err? ==> RingRecord(trace) == RingRecord(old(trace))
      ensures r.Ok? && pushToken.Some? ==> RingRecord(trace) == pushToken
      ensures pushToken.None? ==> r.Ok? && trace == old(trace) && recordAnswers == old(recordAnswers)
      ensures IsUnauthorized(r) ==> OneRefusal(old(trace), trace)
      ensures pushToken.Some? ==>
        Patched(old(trace), trace, pushToken.value, old(now), now, old(legacyRecordUntil), legacyRecordUntil, r)
    {
      if pushToken.None? {
        return DONE;
      }
      var token := pushToken.value;
      var t := Instant();
      ghost var reply: Reply;
      if legacyRecordUntil.Some? && legacyRecordUntil.value > t {
        r, reply := SendDevice(token, true);
        PatchedOnce(old(trace), trace, token, old(now), now, old(legacyRecordUntil), legacyRecordUntil, r, true, reply);
        return;
      }
      r := PatchApp(token);
    }

    /** The app's format first, the older one if that is refused. */
    method PatchApp(token: string) returns (r: Outcome)
      requires Ready() && pushToken == Some(token) && !Pending(legacyRecordUntil, now)
      modifies this`now, this`trace, this`legacyRecordUntil, this`recordAnswers
      ensures Ready() && Background(old(trace), trace) && RecordsCarry(trace, |old(trace)|, pushToken)
      ensures NothingLost(old(trace), trace)
      ensures RecordStays(old(trace), trace, pushToken) && Passes(old(now))
      ensures calm && old(recordAnswers) == [] ==> r.Ok? && recordAnswers == []
      ensures Decisive(old(recordAnswers)) ==>
        r == Checked(old(recordAnswers)[0]) && recordAnswers == old(recordAnswers)[1..]
      ensures calm && r.Err? ==> RingRecord(trace) == RingRecord(old(trace))
      ensures r.Ok? ==> RingRecord(trace) == pushToken
      ensures Patched(old(trace), trace, token, old(now), now, old(legacyRecordUntil), legacyRecordUntil, r)
      ensures IsUnauthorized(r) ==> OneRefusal(old(trace), trace)
    {
      ghost var reply: Reply;
      r, reply := SendDevice(token, false);
      ghost var mid := trace;
      var refused := r.Err? && r.error.Rejected? && 400 <= r.error.status < 500
                     && r.error.status != 401 && r.error.status != 429;
      if refused {
        ghost var second;
        r, second := PatchOlder(token);
        PatchedTwice(old(trace), mid, trace, token, old(now), now, old(legacyRecordUntil), legacyRecordUntil, r, reply,
                     second);
        BothQuiet(old(trace), mid, trace, pushToken);
      } else {
        if r.Ok? {
          legacyRecordUntil := None;
        }
        PatchedOnce(old(trace), trace, token, old(now), now, old(legacyRecordUntil), legacyRecordUntil, r, false,
                    reply);
      }
    }

    /** The older format, remembered for a day. */
    method PatchOlder(token: string) returns (r: Outcome, ghost reply: Reply)
      requires Ready() && pushToken == Some(token)
      modifies this`now, this`trace, this`legacyRecordUntil, this`recordAnswers
      ensures Ready() && Background(old(trace), trace) && RecordsCarry(trace, |old(trace)|, pushToken)
      ensures NothingLost(old(trace), trace) && OneRecord(old(trace), trace, token, true, reply)
      ensures RecordStays(old(trace), trace, pushToken) && Passes(old(now)) && (r.Ok? <==> Success(reply))
      ensures calm && old(recordAnswers) == [] ==> r.Ok? && recordAnswers == []
      ensures calm && r.Err? ==> RingRecord(trace) == RingRecord(old(trace))
      ensures r.Ok? ==> RingRecord(trace) == pushToken
      ensures IsUnauthorized(r) ==> OneRefusal(old(trace), trace)
      ensures legacyRecordUntil.Some? && old(now) + 86400 <= legacyRecordUntil.value <= now + 86400
    {
      var t := Instant();
      legacyRecordUntil := Some(t + RECORD_REPROBE);
      r, reply := SendDevice(token, true);
    }

    /** Registers the session when the last registration ran out. Ring drops the push token with every
        new session record, so the remembered token is sent again; a failure of that is only logged. */
    method EnsureRegistered() returns (r: Outcome)
      requires Ready()
      modifies this`now, this`trace, this`registeredUntil, this`legacyRecordUntil, this`recordAnswers
      ensures Ready() && Background(old(trace), trace) && RecordsCarry(trace, |old(trace)|, pushToken)
      ensures RecordStays(old(trace), trace, pushToken) && Passes(old(now)) && (calm ==> r.Ok?)
      ensures KeepsRecord(old(trace), trace, pushToken)
      ensures r.Ok? && (old(registeredUntil).None? || old(registeredUntil).value <= old(now)) ==>
        && SentSince(trace, |old(trace)|, SessionRegistration)
        && registeredUntil.Some? && old(now) + 43200 <= registeredUntil.value <= now + 43200
      ensures old(registeredUntil).Some? && old(registeredUntil).value > now ==> r.Ok? && trace == old(trace)
      ensures IsUnauthorized(r) ==> OneRefusal(old(trace), trace)
      ensures calm ==> Pending(registeredUntil, now)
      ensures pushToken.None? || (calm && Pending(old(registeredUntil), now)) ==> recordAnswers == old(recordAnswers)
      ensures calm && !Pending(old(registeredUntil), now) && pushToken.Some? && Failing(old(recordAnswers)) ==>
        RingRecord(trace) == None
      ensures calm && old(recordAnswers) == [] ==> recordAnswers == []
    {
      var t := Instant();
      if registeredUntil.Some? && registeredUntil.value > t {
        return DONE;
      }
      r := RegisterAnew();
    }

    method RegisterAnew() returns (r: Outcome)
      requires Ready()
      modifies this`now, this`trace, this`registeredUntil, this`legacyRecordUntil, this`recordAnswers
      ensures Ready() && Background(old(trace), trace) && RecordsCarry(trace, |old(trace)|, pushToken)
      ensures RecordStays(old(trace), trace, pushToken) && Passes(old(now)) && (calm ==> r.Ok?)
      ensures KeepsRecord(old(trace), trace, pushToken)
      ensures SentSince(trace, |old(trace)|, SessionRegistration)
      ensures r.Ok? ==> registeredUntil.Some? && old(now) + 43200 <= registeredUntil.value <= now + 43200
      ensures IsUnauthorized(r) ==> OneRefusal(old(trace), trace)
      ensures calm ==> Pending(registeredUntil, now)
      ensures pushToken.None? ==> recordAnswers == old(recordAnswers)
      ensures calm && pushToken.Some? && Failing(old(recordAnswers)) ==> RingRecord(trace) == None
      ensures calm && old(recordAnswers) == [] ==> recordAnswers == []
    {
      r := CreateSession();
      ghost var created := trace;
      if r.Ok? {
        var t := Instant();
        registeredUntil := Some(t + SESSION_LIFETIME);
        RestorePushToken();
      }
      assert created[|old(trace)|] == trace[|old(trace)|] == Sent(SessionRegistration);
      assert created[|old(trace)| + 1] == trace[|old(trace)| + 1];
    }

    method CreateSession() returns (r: Outcome)
      requires Ready()
      modifies this`now, this`trace
      ensures Ready() && Background(old(trace), trace) && RecordsCarry(trace, |old(trace)|, None)
      ensures Passes(old(now)) && (calm ==> r.Ok?)
      ensures r.Ok? ==> RingRecord(trace) == None
      ensures r.Err? && NothingLost(old(trace), trace) ==> RingRecord(trace) == RingRecord(old(trace))
      ensures r.Err? ==> RingRecord(trace) == None || RingRecord(trace) == RingRecord(old(trace))
      ensures old(trace) < trace && trace[|old(trace)|] == Sent(SessionRegistration)
      ensures |trace| > |old(trace)| + 1 && trace[|old(trace)| + 1].Answered?
      ensures r.Ok? <==> Success(trace[|old(trace)| + 1].reply)
      ensures IsUnauthorized(r) <==> Refusal(trace[|old(trace)| + 1])
    {
      var reply := QuietReply();
      Send(SessionRegistration, reply);
      r := Checked(reply);
      ghost var tail := [Sent(SessionRegistration), Answered(reply)];
      var created: bool := *;
      if r.Ok? {
        Record(RecordDropped);
        tail := tail + [RecordDropped];
      } else if created && !IsUnauthorized(r) {
        Unconfirmed();
        tail := tail + [RecordDropped, SessionUnconfirmed];
        assert Loses(tail[|tail| - 1]);
      }
      assert trace == old(trace) + tail;
      QuietTail(old(trace), tail, None);
      LossInTail(old(trace), tail);
      assert trace[|old(trace)|] == tail[0] && trace[|old(trace)| + 1] == tail[1];
    }

    ghost method Unconfirmed()
      requires Ready()
      modifies this`trace
      ensures Ready() && trace == old(trace) + [RecordDropped, SessionUnconfirmed] && RingRecord(trace) == None
    {
      Record(RecordDropped);
      Record(SessionUnconfirmed);
      assert old(trace) + [RecordDropped] + [SessionUnconfirmed] == old(trace) + [RecordDropped, SessionUnconfirmed];
    }

    method RestorePushToken()
      requires Ready() && RingRecord(trace) == None
      modifies this`now, this`trace, this`legacyRecordUntil, this`recordAnswers
      ensures Ready() && Background(old(trace), trace) && RecordsCarry(trace, |old(trace)|, pushToken)
      ensures RecordStays(old(trace), trace, pushToken) && Passes(old(now))
      ensures NothingLost(old(trace), trace) ==> RingRecord(trace) == pushToken
      ensures pushToken.None? ==> recordAnswers == old(recordAnswers)
      ensures calm && pushToken.Some? && Failing(old(recordAnswers)) ==> RingRecord(trace) == None
      ensures calm && old(recordAnswers) == [] ==> recordAnswers == []
    {
      var restored := PatchPushDevice();
      if restored.Err? {
        Record(RestoreFailed);
        assert Loses(trace[|trace| - 1]);
      }
    }

    method InvalidateAuth()
      requires Valid()
      modifies this`access, this`registeredUntil
      ensures Valid() && access.None? && registeredUntil.None?
    {
      access, registeredUntil := None, None;
    }

    /** Authenticates and registers. */
    method Connect() returns (r: Outcome)
      requires Valid()
      modifies this`now, this`disk, this`memory, this`access, this`rotationPending, this`reauthUntil, this`trace,
               this`registeredUntil, this`legacyRecordUntil, this`recordAnswers
      ensures Valid() && Background(old(trace), trace) && RecordsCarry(trace, |old(trace)|, pushToken)
      ensures RecordStays(old(trace), trace, pushToken)
      ensures KeepsRecord(old(trace), trace, pushToken)
      ensures r.Ok? ==> Ready()
      ensures calm && !Pending(old(reauthUntil), old(now)) ==> r.Ok? && !Pending(reauthUntil, now)
      ensures Passes(old(now))
      ensures IsUnauthorized(r) ==> OneRefusal(old(trace), trace)
      ensures calm && r.Ok? ==> Pending(registeredUntil, now)
      ensures pushToken.None? || (calm && Pending(old(registeredUntil), now)) ==> recordAnswers == old(recordAnswers)
      ensures calm && r.Ok? && !Pending(old(registeredUntil), now) && pushToken.Some? && Failing(old(recordAnswers)) ==>
        RingRecord(trace) == None
      ensures calm && old(recordAnswers) == [] ==> recordAnswers == []
    {
      ghost var at;
      r, at := EnsureAuthenticated();
      if r.Err? {
        return;
      }
      ghost var ready := trace;
      r := EnsureRegistered();
      KeepsTrans(old(trace), ready, trace, pushToken);
    }

    method NextAnswer() returns (reply: Reply)
      modifies this`answers
      ensures old(answers) != [] ==> reply == old(answers)[0] && answers == old(answers)[1..]
      ensures old(answers) == [] ==> answers == [] && (calm ==> Checked(reply).Ok?)
    {
      if answers != [] {
        reply, answers := answers[0], answers[1..];
      } else {
        reply := QuietReply();
      }
    }

    /** Sends one request on a connection made since `before`. */
    method Ask(call: Call, ghost before: seq<Event>) returns (r: Outcome)
      requires Ready() && !Quiet(Sent(call)) && Background(before, trace)
      requires RecordsCarry(trace, |before|, pushToken) && KeepsRecord(before, trace, pushToken)
      modifies this`now, this`trace, this`answers
      ensures Ready() && RingRecord(trace) == RingRecord(old(trace)) && Passes(old(now))
      ensures RecordsCarry(trace, |before|, pushToken) && KeepsRecord(before, trace, pushToken)
      ensures before <= trace && AtMostOneSent(trace, |before|, call) && SentSince(trace, |before|, call)
      ensures IsUnauthorized(r) ==> AllRefused(trace, |before|, call) && OneRefusal(old(trace), trace)
      ensures |trace| >= |before| + 2 && trace[|trace| - 2] == Sent(call) && trace[|trace| - 1].Answered?
      ensures r.Ok? <==> Success(trace[|trace| - 1].reply)
      ensures IsUnauthorized(r) <==> Refusal(trace[|trace| - 1])
      ensures old(answers) != [] ==> r == Checked(old(answers)[0]) && answers == old(answers)[1..]
      ensures calm && old(answers) == [] ==> r.Ok? && answers == []
    {
      ghost var registered := trace;
      var reply := NextAnswer();
      Send(call, reply);
      r := Checked(reply);
      CallTail(before, registered, trace, call, reply, pushToken);
    }

    /** Nothing keeps any request from succeeding. */
    ghost predicate Fair()
      reads this
    {
      calm && !Pending(reauthUntil, now) && answers == [] && recordAnswers == []
    }

    /** Nothing but the answers scripted can keep an operation from succeeding. */
    ghost predicate Calm(reauth: Option<int>, at: int, script: seq<Reply>) {
      calm && !Pending(reauth, at) && script != []
    }

    /** One attempt of a request: authenticate, register, send. `again` asks for the second attempt. */
    method Attempt(call: Call, first: bool, retryRegistration: bool) returns (r: Outcome, again: bool)
      requires Valid() && !Quiet(Sent(call))
      modifies this`now, this`disk, this`memory, this`access, this`rotationPending, this`reauthUntil, this`trace,
               this`registeredUntil, this`legacyRecordUntil, this`answers, this`recordAnswers
      ensures RecordStays(old(trace), trace, pushToken)
      ensures Valid() && RecordsCarry(trace, |old(trace)|, pushToken)
      ensures old(trace) <= trace && AtMostOneSent(trace, |old(trace)|, call)
      ensures again ==> first && AllRefused(trace, |old(trace)|, call) && access.None? && registeredUntil.None?
      ensures r.Ok? ==> EndsWith(trace, |old(trace)|, call)
      ensures IsUnauthorized(r) ==> OneRefusal(old(trace), trace)
      ensures IsUnauthorized(r) && first && retryRegistration ==> again
      ensures again ==> IsUnauthorized(r)
      ensures Passes(old(now))
      ensures Calm(old(reauthUntil), old(now), old(answers)) ==>
        && SentSince(trace, |old(trace)|, call) && r == Checked(old(answers)[0]) && answers == old(answers)[1..]
        && again == (first && Unauthorized(old(answers)[0])) && !Pending(reauthUntil, now)
        && (Pending(old(registeredUntil), now) ==> recordAnswers == old(recordAnswers))
        && (!Pending(old(registeredUntil), now) && pushToken.Some? && Failing(old(recordAnswers)) ==>
              RingRecord(trace) == None)
      ensures KeepsRecord(old(trace), trace, pushToken)
      ensures old(Fair()) ==> Fair() && r.Ok? && !again
    {
      again := false;
      r := Connect();
      if r.Err? {
        if first && retryRegistration && IsUnauthorized(r) {
          InvalidateAuth();
          again := true;
        }
        return;
      }
      r := Ask(call, old(trace));
      if IsUnauthorized(r) && first {
        InvalidateAuth();
        again := true;
      }
    }

    /** The two-attempt loop behind every Ring request. Discovery also retries a 401 of the session
        registration; other operations return it. Success after two requests means exactly that the first was
        answered with a 401; and where nothing else fails, a 401 does make the loop send again. */
    method Request(call: Call, retryRegistration: bool) returns (r: Outcome)
      requires Valid() && !Quiet(Sent(call))
      modifies this`now, this`disk, this`memory, this`access, this`rotationPending, this`reauthUntil, this`trace,
               this`registeredUntil, this`legacyRecordUntil, this`answers, this`recordAnswers
      ensures RecordStays(old(trace), trace, pushToken)
      ensures Valid() && RecordsCarry(trace, |old(trace)|, pushToken)
      ensures Requested(old(trace), trace, call, r)
      ensures KeepsRecord(old(trace), trace, pushToken)
      ensures retryRegistration && IsUnauthorized(r) ==> TwoRefusals(trace, |old(trace)|)
      ensures Calm(old(reauthUntil), old(now), old(answers)) && |old(answers)| >= 2 ==>
        && (SentTwice(trace, |old(trace)|, call) <==> Unauthorized(old(answers)[0]))
        && r == Checked(if Unauthorized(old(answers)[0]) then old(answers)[1] else old(answers)[0])
      ensures (Calm(old(reauthUntil), old(now), old(answers)) && |old(answers)| >= 2
               && Unauthorized(old(answers)[0]) && Pending(old(registeredUntil), old(now))
               && pushToken.Some? && Failing(old(recordAnswers))) ==>
        RingRecord(trace) == None
      ensures old(Fair()) ==> Fair() && r.Ok?
    {
      var attempt := 0;
      while attempt <= 1
        invariant 0 <= attempt <= 1 && Valid()
        invariant RefusedSoFar(old(trace), trace, call, pushToken)
        invariant attempt == 1 ==> OneRefusal(old(trace), trace) && !old(Fair())
        invariant attempt == 0 ==>
          && trace == old(trace) && now == old(now) && reauthUntil == old(reauthUntil)
          && registeredUntil == old(registeredUntil) && answers == old(answers) && recordAnswers == old(recordAnswers)
        invariant attempt == 1 && Calm(old(reauthUntil), old(now), old(answers)) ==>
          && SentSince(trace, |old(trace)|, call) && Unauthorized(old(answers)[0])
          && answers == old(answers)[1..] && !Pending(reauthUntil, now) && registeredUntil.None?
          && (Pending(old(registeredUntil), old(now)) ==> recordAnswers == old(recordAnswers))
        decreases 2 - attempt
      {
        var again: bool;
        r, again := AttemptAfter(call, attempt == 0, retryRegistration, old(trace));
        if !again {
          return;
        }
        attempt := attempt + 1;
      }
    }

    /** An attempt, told as what has happened since the trace was `start`. */
    method AttemptAfter(call: Call, first: bool, retryRegistration: bool, ghost start: seq<Event>)
      returns (r: Outcome, again: bool)
      requires Valid() && !Quiet(Sent(call)) && RefusedSoFar(start, trace, call, pushToken)
      requires if first then trace == start else OneRefusal(start, trace)
      modifies this`now, this`disk, this`memory, this`access, this`rotationPending, this`reauthUntil, this`trace,
               this`registeredUntil, this`legacyRecordUntil, this`answers, this`recordAnswers
      ensures Valid() && Passes(old(now)) && (old(Fair()) ==> Fair() && r.Ok? && !again)
      ensures again ==> first && registeredUntil.None?
      ensures again ==> RefusedSoFar(start, trace, call, pushToken) && OneRefusal(start, trace)
      ensures !again ==> RecordStays(start, trace, pushToken) && RecordsCarry(trace, |start|, pushToken)
      ensures !again ==> Requested(start, trace, call, r) && KeepsRecord(start, trace, pushToken)
      ensures !again && retryRegistration && IsUnauthorized(r) ==> TwoRefusals(trace, |start|)
      ensures Calm(old(reauthUntil), old(now), old(answers)) ==>
        && SentSince(trace, |start|, call)
        && (!again ==> (SentTwice(trace, |start|, call) <==> SentSince(old(trace), |start|, call)))
        && r == Checked(old(answers)[0]) && answers == old(answers)[1..]
        && again == (first && Unauthorized(old(answers)[0])) && !Pending(reauthUntil, now)
        && (Pending(old(registeredUntil), now) ==> recordAnswers == old(recordAnswers))
        && (!Pending(old(registeredUntil), now) && pushToken.Some? && Failing(old(recordAnswers)) ==>
              RingRecord(trace) == None)
    {
      r, again := Attempt(call, first, retryRegistration);
      if !again {
        LastAttempt(start, old(trace), trace, call, pushToken, r);
        if !first && IsUnauthorized(r) {
          RefusedTwice(start, old(trace), trace);
        }
      }
    }

    method DiscoveryBody() returns (r: Outcome)
      requires Valid()
      modifies this`now, this`disk, this`memory, this`access, this`rotationPending, this`reauthUntil, this`trace,
               this`registeredUntil, this`legacyRecordUntil, this`answers, this`recordAnswers
      ensures RecordStays(old(trace), trace, pushToken)
      ensures Valid() && RecordsCarry(trace, |old(trace)|, pushToken)
      ensures Requested(old(trace), trace, Discovery, r)
      ensures KeepsRecord(old(trace), trace, pushToken)
      ensures IsUnauthorized(r) ==> TwoRefusals(trace, |old(trace)|)
      ensures old(Fair()) ==> Fair() && r.Ok?
    {
      r := Request(Discovery, true);
    }

    /** Any other Ring operation, the door unlock included. */
    method VendorRequest(operation: string) returns (r: Outcome)
      requires Valid()
      modifies this`now, this`disk, this`memory, this`access, this`rotationPending, this`reauthUntil, this`trace,
               this`registeredUntil, this`legacyRecordUntil, this`answers, this`recordAnswers
      ensures RecordStays(old(trace), trace, pushToken)
      ensures Valid() && RecordsCarry(trace, |old(trace)|, pushToken)
      ensures Requested(old(trace), trace, Operation(operation), r)
      ensures KeepsRecord(old(trace), trace, pushToken)
      ensures Calm(old(reauthUntil), old(now), old(answers)) && |old(answers)| >= 2 ==>
        && (SentTwice(trace, |old(trace)|, Operation(operation)) <==> Unauthorized(old(answers)[0]))
        && r == Checked(if Unauthorized(old(answers)[0]) then old(answers)[1] else old(answers)[0])
      ensures (Calm(old(reauthUntil), old(now), old(answers)) && |old(answers)| >= 2
               && Unauthorized(old(answers)[0]) && Pending(old(registeredUntil), old(now))
               && pushToken.Some? && Failing(old(recordAnswers))) ==>
        RingRecord(trace) == None
      ensures old(Fair()) ==> Fair() && r.Ok?
    {
      r := Request(Operation(operation), false);
    }

    /** The stream ticket is asked for once, without a second attempt. */
    method StreamGrant() returns (r: Outcome)
      requires Valid()
      modifies this`now, this`disk, this`memory, this`access, this`rotationPending, this`reauthUntil, this`trace,
               this`registeredUntil, this`legacyRecordUntil, this`answers, this`recordAnswers
      ensures RecordStays(old(trace), trace, pushToken)
      ensures Valid() && RecordsCarry(trace, |old(trace)|, pushToken)
      ensures old(trace) <= trace && AtMostOneSent(trace, |old(trace)|, StreamTicket)
      ensures r.Ok? ==> EndsWith(trace, |old(trace)|, StreamTicket)
      ensures KeepsRecord(old(trace), trace, pushToken)
      ensures old(Fair()) ==> Fair() && r.Ok?
    {
      var again: bool;
      r, again := Attempt(StreamTicket, false, false);
    }

    // ------------------------------------------------------------ push token

    /** Replaces the remembered push token. The previous one is withheld meanwhile, so nothing sent here
        can carry it, and it comes back if the new one is not accepted. */
    method RegisterPushToken(token: string) returns (r: Outcome)
      requires Valid()
      modifies this
      ensures RecordStays(old(trace), trace, Some(token))
      ensures Valid() && old(trace) <= trace && RecordsCarry(trace, |old(trace)|, Some(token))
      ensures r.Ok? ==> ValidToken(token) && pushToken == Some(token) && RingRecord(trace) == Some(token)
      ensures r.Err? ==> pushToken == old(pushToken)
      ensures !ValidToken(token) ==> r == Err(Protocol) && trace == old(trace)
      ensures answers == old(answers) && Passes(old(now))
      ensures (calm && ValidToken(token) && !Pending(old(reauthUntil), old(now)) && old(recordAnswers) != []
               && Checked(old(recordAnswers)[0]).Ok?) ==>
        && r.Ok? && recordAnswers == old(recordAnswers)[1..]
        && Pending(registeredUntil, now) && !Pending(reauthUntil, now)
      ensures old(Fair()) && ValidToken(token) ==> Fair() && r.Ok?
    {
      var valid := TokenIsValid(token);
      if !valid {
        return Err(Protocol);
      }
      var previous := pushToken;
      pushToken := None;
      r := ReplacePushToken(token);
      if r.Err? {
        pushToken := previous;
      }
    }

    method TokenIsValid(token: string) returns (valid: bool)
      ensures valid <==> ValidToken(token)
      ensures valid <==> 32 <= |token| <= 4096 && forall i :: 0 <= i < |token| ==> 33 <= token[i] as int <= 126
    {
      if |token| < 32 || |token| > 4096 {
        return false;
      }
      for i := 0 to |token|
        invariant forall k :: 0 <= k < i ==> 33 <= token[k] as int <= 126
      {
        if token[i] < '!' || token[i] > '~' {
          return false;
        }
      }
      valid := true;
    }

    method ReplacePushToken(token: string) returns (r: Outcome)
      requires Valid() && pushToken.None?
      modifies this
      ensures RecordStays(old(trace), trace, Some(token))
      ensures Valid() && old(trace) <= trace && RecordsCarry(trace, |old(trace)|, Some(token))
      ensures r.Ok? ==> pushToken == Some(token) && RingRecord(trace) == Some(token)
      ensures answers == old(answers) && Passes(old(now))
      ensures (calm && !Pending(old(reauthUntil), old(now)) && old(recordAnswers) != []
               && Checked(old(recordAnswers)[0]).Ok?) ==>
        && r.Ok? && recordAnswers == old(recordAnswers)[1..]
        && Pending(registeredUntil, now) && !Pending(reauthUntil, now)
      ensures old(Fair()) ==> Fair() && r.Ok?
      ensures IsUnauthorized(r) && pushToken.Some? ==> TwoRefusals(trace, |old(trace)|)
    {
      r := Connect();
      if r.Err? {
        return;
      }
      ghost var connected := trace;
      r := PatchTwice(token);
      if IsUnauthorized(r) {
        RefusedLater(old(trace), connected, trace);
      }
    }

    /** The record, and once more after a 401. */
    method PatchTwice(token: string) returns (r: Outcome)
      requires Ready()
      modifies this
      ensures RecordStays(old(trace), trace, Some(token))
      ensures Valid() && old(trace) <= trace && RecordsCarry(trace, |old(trace)|, Some(token))
      ensures pushToken == Some(token) && (r.Ok? ==> RingRecord(trace) == Some(token))
      ensures answers == old(answers) && Passes(old(now))
      ensures (calm && old(recordAnswers) != [] && Checked(old(recordAnswers)[0]).Ok?) ==>
        && r.Ok? && recordAnswers == old(recordAnswers)[1..]
        && registeredUntil == old(registeredUntil) && reauthUntil == old(reauthUntil)
      ensures calm && old(recordAnswers) == [] ==> r.Ok? && recordAnswers == [] && reauthUntil == old(reauthUntil)
      ensures IsUnauthorized(r) ==> TwoRefusals(trace, |old(trace)|)
    {
      pushToken := Some(token);
      r := PatchPushDevice();
      if !IsUnauthorized(r) {
        return;
      }
      ghost var refused := trace;
      r := ReplaceAgain(token);
      if IsUnauthorized(r) {
        RefusedTwice(old(trace), refused, trace);
      }
    }

    /** The second try, after a 401. */
    method ReplaceAgain(token: string) returns (r: Outcome)
      requires Valid() && pushToken == Some(token)
      modifies this
      ensures Valid() && old(trace) <= trace && RecordsCarry(trace, |old(trace)|, Some(token))
      ensures RecordStays(old(trace), trace, Some(token))
      ensures answers == old(answers) && pushToken == old(pushToken) && Passes(old(now))
      ensures r.Ok? ==> RingRecord(trace) == Some(token)
      ensures IsUnauthorized(r) ==> OneRefusal(old(trace), trace)
    {
      InvalidateAuth();
      r := Connect();
      if r.Ok? {
        r := PatchPushDevice();
      }
    }

    /** Hands a token to Ring and subscribes `intercoms` Intercoms, with other requests in between. Success means that
        the token is valid and that Ring's record carries it, unless something was lost on the way. */
    method HandOff(token: string, intercoms: seq<string>) returns (r: Outcome, devices: seq<string>)
      requires Valid()
      modifies this
      ensures RecordStays(old(trace), trace, Some(token))
      ensures Valid() && old(trace) <= trace && RecordsCarry(trace, |old(trace)|, Some(token))
      ensures r.Ok? ==> ValidToken(token) && devices == intercoms && Subscribed(old(trace), trace, intercoms)
      ensures r.Ok? ==> pushToken == Some(token) && (RingRecord(trace) == Some(token) || RingRecord(trace) == None)
      ensures r.Ok? && NothingLost(old(trace), trace) ==> RingRecord(trace) == Some(token)
      ensures r.Err? ==> pushToken == old(pushToken) || pushToken == Some(token)
      ensures old(Fair()) && ValidToken(token) ==> Fair() && r.Ok?
    {
      devices := [];
      r := RegisterPushToken(token);
      if r.Err? {
        return;
      }
      ghost var handed := trace;
      for i := 0 to |intercoms|
        invariant Valid() && pushToken == Some(token) && r.Ok? && old(trace) <= handed <= trace
        invariant RecordsCarry(trace, |old(trace)|, pushToken)
        invariant KeepsRecord(handed, trace, pushToken)
        invariant RingRecord(trace) == Some(token) || RingRecord(trace) == None
        invariant devices == intercoms[..i] && Subscribed(old(trace), trace, devices)
        invariant old(Fair()) && ValidToken(token) ==> Fair()
      {
        ghost var before := trace;
        r := SubscribeNext(intercoms[i]);
        KeepsTrans(handed, before, trace, pushToken);
        if r.Err? {
          return;
        }
        SubscribedMore(old(trace), before, trace, devices, intercoms[i]);
        devices := devices + [intercoms[i]];
      }
      assert NothingLost(old(trace), trace) ==> NothingLost(handed, trace);
    }

    method SubscribeNext(id: string) returns (r: Outcome)
      requires Valid()
      modifies this`now, this`disk, this`memory, this`access, this`rotationPending, this`reauthUntil, this`trace,
               this`registeredUntil, this`legacyRecordUntil, this`answers, this`recordAnswers
      ensures RecordStays(old(trace), trace, pushToken)
      ensures Valid() && old(trace) <= trace && RecordsCarry(trace, |old(trace)|, pushToken)
      ensures KeepsRecord(old(trace), trace, pushToken)
      ensures r.Ok? ==> SentSince(trace, |old(trace)|, Operation(SubscriptionOf(id)))
      ensures old(Fair()) ==> Fair() && r.Ok?
    {
      Others();
      ghost var busy := trace;
      r := Subscribe(id);
      KeepsTrans(old(trace), busy, trace, pushToken);
    }

    /** Resolves one Intercom and subscribes it. */
    method Subscribe(id: string) returns (r: Outcome)
      requires Valid()
      modifies this`now, this`disk, this`memory, this`access, this`rotationPending, this`reauthUntil, this`trace,
               this`registeredUntil, this`legacyRecordUntil, this`answers, this`recordAnswers
      ensures RecordStays(old(trace), trace, pushToken)
      ensures Valid() && old(trace) <= trace && RecordsCarry(trace, |old(trace)|, pushToken)
      ensures KeepsRecord(old(trace), trace, pushToken)
      ensures r.Ok? ==> SentSince(trace, |old(trace)|, Operation(SubscriptionOf(id)))
      ensures old(Fair()) ==> Fair() && r.Ok?
    {
      r := DiscoveryBody();
      if r.Err? {
        return;
      }
      ghost var discovered := trace;
      Others();
      ghost var busy := trace;
      KeepsTrans(old(trace), discovered, busy, pushToken);
      r := VendorRequest(SubscriptionOf(id));
      KeepsTrans(old(trace), busy, trace, pushToken);
    }

    /** Whatever other users of the client ask for while its lock is free. */
    method Others()
      requires Valid()
      modifies this`now, this`disk, this`memory, this`access, this`rotationPending, this`reauthUntil, this`trace,
               this`registeredUntil, this`legacyRecordUntil, this`answers, this`recordAnswers
      ensures Valid() && old(trace) <= trace && RecordsCarry(trace, |old(trace)|, pushToken)
      ensures RecordStays(old(trace), trace, pushToken) && KeepsRecord(old(trace), trace, pushToken)
      ensures old(Fair()) ==> Fair()
    {
      var requests: int := *;
      while requests > 0
        invariant Valid() && old(trace) <= trace && RecordsCarry(trace, |old(trace)|, pushToken)
        invariant RecordStays(old(trace), trace, pushToken) && KeepsRecord(old(trace), trace, pushToken)
        invariant old(Fair()) ==> Fair()
        decreases requests
      {
        ghost var before := trace;
        OneOther();
        KeepsTrans(old(trace), before, trace, pushToken);
        requests := requests - 1;
      }
    }

    method OneOther()
      requires Valid()
      modifies this`now, this`disk, this`memory, this`access, this`rotationPending, this`reauthUntil, this`trace,
               this`registeredUntil, this`legacyRecordUntil, this`answers, this`recordAnswers
      ensures Valid() && old(trace) <= trace && RecordsCarry(trace, |old(trace)|, pushToken)
      ensures RecordStays(old(trace), trace, pushToken) && KeepsRecord(old(trace), trace, pushToken)
      ensures old(Fair()) ==> Fair()
    {
      var kind: int := *;
      var name: string := *;
      var r: Outcome;
      if kind == 0 {
        r := DiscoveryBody();
      } else if kind == 1 {
        r := VendorRequest(name);
      } else {
        r := StreamGrant();
      }
    }
  }

  /** A door unlock answered with a 401 is sent again: the loop does retry it. */
  method UnlockIsSentAgain(now: int, disk: string) returns (client: RingClient, r: Outcome)
    ensures SentTwice(client.trace, 0, Operation("unlock")) && r.Ok?
  {
    client := new RingClient(now, disk, true, [Answer(401, true), Answer(200, true)], []);
    r := client.VendorRequest("unlock");
  }

  /** Ring's record can be lost while all goes well: an operation that is answered with a 401 registers the session
      anew, the restore of the push token fails, and the operation succeeds on its second attempt. */
  method RecordIsLost(now: int, disk: string, token: string) returns (client: RingClient, r: Outcome)
    requires ValidToken(token)
    ensures r.Ok? && client.pushToken == Some(token) && RingRecord(client.trace) == None
  {
    var operations := [Answer(401, true), Answer(200, true)];
    var records := [Answer(200, true), Answer(500, true)];
    client := new RingClient(now, disk, true, operations, records);
    r := client.RegisterPushToken(token);
    r := client.VendorRequest("volume");
  }

  // ------------------------------------------------------------- any sequence of calls

  datatype Job =
    | Discover
    | Operate(name: string)
    | Ticket
    | RegisterToken(token: string)

  /** Every sequence of client calls, with every pattern of replies, failures and delays, leaves a safe
      trace, so the laws of module `RequestTrace` hold for the client's whole life. */
  method Drive(client: RingClient, jobs: seq<Job>)
    requires client.Valid()
    modifies client
    ensures client.Valid() && old(client.trace) <= client.trace
    ensures Safe(client.loaded, client.trace)
    ensures !client.rotationPending ==> client.disk == client.memory == LastAccepted(client.loaded, client.trace)
  {
    for i := 0 to |jobs|
      invariant client.Valid() && old(client.trace) <= client.trace
    {
      var r: Outcome;
      match jobs[i]
      case Discover => r := client.DiscoveryBody();
      case Operate(name) => r := client.VendorRequest(name);
      case Ticket => r := client.StreamGrant();
      case RegisterToken(token) => r := client.RegisterPushToken(token);
    }
    MonitorIsFaithful(client.loaded, client.trace);
  }
}
