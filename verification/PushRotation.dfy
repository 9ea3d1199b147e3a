/**
 Make-before-break push registration. Three copies of the push token must agree when the listener
 connects: the one in Ring's device record, the one in the registration file, and the one returned.

 Class `PushListener` works on a real `RingClient`, so Ring's record is the one of the client's trace. What
 its steps did is told by a `Script`, one outcome per step, and a statement for all scripts is a statement
 for every pattern of step failures. Strings stand for byte strings.
 */
module PushRotation {
  import opened Wrappers
  import RequestTrace
  import RingClients

  const MAX_PERSISTENT_IDS := 100
  const MAX_PUSH_BYTES := 64 * 1024
  const FRAME_BYTES := 56          // the document without its registration and ids

  /** `otherBytes`: length of the JSON text of everything in it but the two strings. */
  datatype Registration = Registration(fcmToken: string, gcm: string, otherBytes: nat)

  datatype PushState = PushState(registration: Registration, persistentIds: seq<string>)

  datatype File = Absent | Document(state: PushState) | Garbage

  datatype World = World(
    file: File,
    quarantined: Option<File>,     // the single slot a bad file is moved to
    ring: Option<string>,          // token in Ring's device record
    remembered: Option<string>,    // token the client restores after a new session record
    rotate: bool,                  // a rotation is due
    current: Option<PushState>)    // registration the listener works with

  // ----------------------------------------------------------------- the store

  predicate IsAscii(s: string) {
    forall i :: 0 <= i < |s| ==> s[i] < 128 as char
  }

  predicate AdmissibleId(id: string) {
    0 < |id| <= 512 && IsAscii(id)
  }

  predicate ValidDocument(state: PushState) {
    && RingClients.ValidToken(state.registration.fcmToken)
    && |state.persistentIds| <= MAX_PERSISTENT_IDS
    && forall i :: 0 <= i < |state.persistentIds| ==> AdmissibleId(state.persistentIds[i])
  }

  /** Bytes of one character inside a JSON string. */
  function EscapedChar(c: char): nat {
    if c == '"' || c == '\\' || c as int in {8, 9, 10, 12, 13} then 2 else if c as int < 32 then 6 else 1
  }

  function Escaped(s: string): (r: nat)
    ensures r >= |s|
  {
    if s == "" then 0 else Escaped(s[..|s| - 1]) + EscapedChar(s[|s| - 1])
  }

  /** Bytes of the quoted strings of a JSON array, with its commas. */
  function Quoted(ids: seq<string>): nat {
    if ids == [] then 0
    else Quoted(ids[..|ids| - 1]) + Escaped(ids[|ids| - 1]) + 2 + if |ids| > 1 then 1 else 0
  }

  function DocumentBytes(state: PushState): nat {
    FRAME_BYTES + Escaped(state.registration.fcmToken) + Escaped(state.registration.gcm) + state.registration.otherBytes
    + Quoted(state.persistentIds)
  }

  predicate Fits(state: PushState) {
    DocumentBytes(state) <= MAX_PUSH_BYTES
  }

  predicate Loadable(state: PushState) {
    ValidDocument(state) && Fits(state)
  }

  function NewState(registration: Registration): PushState {
    PushState(registration, [])
  }

  predicate Ignored(state: PushState, id: string) {
    id == "" || |id| > 512 || id in state.persistentIds
  }

  function Remembered(state: PushState, id: string): PushState {
    if Ignored(state, id) then state
    else
      var ids := state.persistentIds + [id];
      state.(persistentIds := if |ids| > MAX_PERSISTENT_IDS then ids[1..] else ids)
  }

  datatype LoadOutcome =
    | Read
    | Unreadable                 // a permission or I/O problem
    | MovedThenFailed            // the directory sync after moving a bad file aside failed

  predicate Bad(file: File) {
    file.Garbage? || (file.Document? && !Loadable(file.state))
  }

  function MovedAside(w: World): World {
    w.(file := Absent, quarantined := Some(w.file))
  }

  /** What `load` leaves and returns: a bad document is moved aside, never deleted. */
  function Loaded(w: World): (World, Option<PushState>) {
    if Bad(w.file) then (MovedAside(w), None)
    else (w, if w.file.Absent? then None else Some(w.file.state))
  }

  datatype PersistOutcome =
    | Written
    | NotWritten
    | WrittenButReportedFailed   // the directory sync after the rename failed

  /** The write is reported as done; one over the size limit is refused first. */
  predicate Done(state: PushState, o: PersistOutcome) {
    o.Written? && Fits(state)
  }

  function Persisted(w: World, state: PushState, o: PersistOutcome): World {
    if o.NotWritten? || !Fits(state) then w else w.(file := Document(state))
  }

  // ------------------------------------------------------------------- prepare

  /** What client calls did to Ring's record. */
  datatype Touch =
    | Untouched
    | Set                        // to the token the client remembers
    | Dropped                    // by a new session record whose restore failed or whose reply was lost

  function Touched(ring: Option<string>, token: Option<string>, touch: Touch): Option<string> {
    match touch
    case Untouched => ring
    case Set => token
    case Dropped => None
  }

  /** How handing a token to Ring ends. */
  datatype HandOff =
    | Accepted(devices: seq<string>)
    | AcceptedThenDropped(devices: seq<string>)  // a session registered anew, and restoring the token failed
    | NotAccepted(touch: Touch, taken: bool)     // `taken`: the token was registered, a subscription failed

  datatype Script = Script(
    load: LoadOutcome,
    registration: Option<Registration>,  // a new FCM registration, if one was obtained
    newHandOff: HandOff,
    persist: PersistOutcome,
    between: Touch,                      // other requests after a failed rotation, before the old hand-off
    oldHandOff: HandOff)

  datatype Prepared = Prepared(state: PushState, devices: seq<string>)

  function Handed(w: World, token: string, h: HandOff): (World, Option<seq<string>>) {
    match h
    case Accepted(devices) => (w.(ring := Some(token), remembered := Some(token)), Some(devices))
    case AcceptedThenDropped(devices) => (w.(ring := None, remembered := Some(token)), Some(devices))
    case NotAccepted(touch, taken) =>
      (w.(ring := Touched(w.ring, Some(token), touch), remembered := if taken then Some(token) else w.remembered), None)
  }

  /** Register, hand off, and only then replace the file. */
  function Rotated(w: World, s: Script): (World, Option<Prepared>) {
    if s.registration.None? then (w, None)
    else
      var state := NewState(s.registration.value);
      var (handed, devices) := Handed(w, state.registration.fcmToken, s.newHandOff);
      if devices.None? then (handed, None)
      else
        (Persisted(handed, state, s.persist),
         if Done(state, s.persist) then Some(Prepared(state, devices.value)) else None)
  }

  /** Nothing stored: persist first, so that a failed hand-off reuses it. */
  function Registered(w: World, s: Script): (World, Option<Prepared>) {
    if s.registration.None? then (w, None)
    else
      var state := NewState(s.registration.value);
      var stored := Persisted(w, state, s.persist);
      if !Done(state, s.persist) then (stored, None)
      else
        var (handed, devices) := Handed(stored, state.registration.fcmToken, s.newHandOff);
        if devices.None? then (handed, None)
        else (handed.(rotate := false), Some(Prepared(state, devices.value)))
  }

  function Reused(w: World, state: PushState, s: Script): (World, Option<Prepared>) {
    var (handed, devices) := Handed(w, state.registration.fcmToken, s.oldHandOff);
    (handed, if devices.None? then None else Some(Prepared(state, devices.value)))
  }

  /** Requests of others on the same client. */
  function Shaken(w: World, touch: Touch): World {
    w.(ring := Touched(w.ring, w.remembered, touch))
  }

  /** A registration is stored: rotate it if that is due, and otherwise or failing that hand it off again. */
  function Kept(w: World, state: PushState, s: Script): (World, Option<Prepared>) {
    if !w.rotate then Reused(w, state, s)
    else
      var (tried, prepared) := Rotated(w.(rotate := false), s);
      if prepared.Some? then (tried, prepared) else Reused(Shaken(tried, s.between), state, s)
  }

  function PrepareResult(w: World, s: Script): (World, Option<Prepared>) {
    if s.load.Unreadable? then (w, None)
    else if s.load.MovedThenFailed? then (if Bad(w.file) then MovedAside(w) else w, None)
    else
      var (loaded, stored) := Loaded(w);
      if stored.None? then Registered(loaded, s) else Kept(loaded, stored.value, s)
  }

  // ------------------------------------------------------------------ whole runs

  /** What the worker, and other users of its client, do. */
  datatype Step =
    | Plan                                                // the policy asked for a rotation
    | Prepare(script: Script)
    | CheckIn(gcm: string, outcome: PersistOutcome)       // Google changed the device session
    | Acknowledge(id: string, outcome: PersistOutcome)    // remember one message id
    | Other(touch: Touch)                                 // a request of somebody else, maybe with a new session
    | Enroll                                              // a new enrollment replaces the client
    | Disconnect                                          // the connection ends, by a reload or by itself

  function Restored(w: World, state: PushState, o: PersistOutcome): World {
    Persisted(w.(current := if Done(state, o) then Some(state) else None), state, o)
  }

  function Next(w: World, step: Step): World {
    match step
    case Plan => w.(rotate := true)
    case Prepare(s) =>
      var (after, p) := PrepareResult(w, s);
      after.(current := if p.Some? then Some(p.value.state) else None)
    case CheckIn(gcm, o) =>
      if w.current.None? then w
      else Restored(w, w.current.value.(registration := w.current.value.registration.(gcm := gcm)), o)
    case Acknowledge(id, o) =>
      if w.current.None? then w else Restored(w, Remembered(w.current.value, id), o)
    case Other(touch) => Shaken(w, touch)
    case Enroll => w.(ring := None, remembered := None)
    case Disconnect => w.(current := None)
  }

  function Run(w: World, steps: seq<Step>): World {
    if steps == [] then w else Next(Run(w, steps[..|steps| - 1]), steps[|steps| - 1])
  }

  // ------------------------------------------------------------------ the listener

  datatype Task =
    | PlanRotation
    | Reconnect(intercoms: seq<string>)
    | NewDeviceSession(gcm: string)
    | Message(id: string)
    | Discovery
    | Operation(name: string)
    | StreamTicket
    | Reenroll(token: string)        // with the refresh token of the new session
    | End

  class PushListener {
    const calm: bool                          // the store and the registrar do not fail
    const offer: Registration                 // what the registrar then gives
    var client: RingClients.RingClient
    var file: File
    var quarantined: Option<File>
    var rotate: bool
    var current: Option<PushState>
    ghost var mark: seq<RequestTrace.Event>   // the client's trace when the last prepare began
    ghost var replaced: bool                  // the client was replaced since

    /** While connected with the client of the last prepare, Ring's record holds the token unless something was lost
        since that prepare began. */
    ghost predicate Held()
      reads this, client
    {
      current.Some? && !replaced ==>
        var token := current.value.registration.fcmToken;
        && mark <= client.trace && client.pushToken == Some(token)
        && (RingClients.NothingLost(mark, client.trace) ==> RequestTrace.RingRecord(client.trace) == Some(token))
    }

    /** The hand-off got through: Ring's record holds the token unless something was lost on the way. */
    ghost predicate Through(before: seq<RequestTrace.Event>, token: string)
      reads this, client
    {
      && before <= client.trace && client.pushToken == Some(token)
      && (RingClients.NothingLost(before, client.trace) ==> RequestTrace.RingRecord(client.trace) == Some(token))
    }

    ghost function Value(): World
      reads this, client
    {
      World(file, quarantined, RequestTrace.RingRecord(client.trace), client.pushToken, rotate, current)
    }

    constructor (client: RingClients.RingClient, file: File, calm: bool, offer: Registration)
      ensures this.calm == calm && this.offer == offer
      ensures this.client == client && this.file == file && quarantined.None? && !rotate && current.None?
    {
      this.client, this.file, this.calm, this.offer := client, file, calm, offer;
      quarantined, rotate, current := None, false, None;
      mark, replaced := [], false;
    }

    /** Hands a token to Ring through the client. Every way the client's call can end is one of the scripted
        outcomes, with Ring's record as the client's trace has it. */
    method HandOffToken(token: string, intercoms: seq<string>) returns (devices: Option<seq<string>>, ghost h: HandOff)
      requires client.Valid()
      modifies client
      ensures client.Valid() && (Value(), devices) == Handed(old(Value()), token, h)
      ensures old(client.trace) <= client.trace && (devices.Some? ==> Through(old(client.trace), token))
      ensures devices.Some? ==> RingClients.ValidToken(token) && devices.value == intercoms
      ensures devices.Some? ==> RingClients.Subscribed(old(client.trace), client.trace, intercoms)
      ensures old(client.Fair()) && RingClients.ValidToken(token) ==> client.Fair() && devices.Some?
    {
      var r, ids := client.HandOff(token, intercoms);
      devices := if r.Ok? then Some(ids) else None;
      ghost var ring := RequestTrace.RingRecord(client.trace);
      if r.Ok? {
        h := if ring == Some(token) then Accepted(ids) else AcceptedThenDropped(ids);
      } else {
        h := NotAccepted(TouchOf(old(Value()).ring, Some(token), ring), client.pushToken != old(client.pushToken));
      }
    }

    method Persist(state: PushState) returns (ok: bool, ghost o: PersistOutcome)
      modifies this`file
      ensures Value() == Persisted(old(Value()), state, o) && ok == Done(state, o)
      ensures calm && Fits(state) ==> ok
    {
      if !Fits(state) {
        return false, NotWritten;
      }
      ok := *;
      ok := ok || calm;
      var renamed: bool := *;
      if ok || renamed {
        file := Document(state);
      }
      o := if ok then Written else if renamed then WrittenButReportedFailed else NotWritten;
    }

    method Load() returns (ok: bool, stored: Option<PushState>, ghost o: LoadOutcome)
      modifies this`file, this`quarantined
      ensures ok == o.Read? && (calm ==> ok)
      ensures ok ==> (Value(), stored) == Loaded(old(Value()))
      ensures !ok ==> Value() == if o.MovedThenFailed? && Bad(old(file)) then MovedAside(old(Value())) else old(Value())
    {
      ok := *;
      ok := ok || calm;
      if !ok {
        return false, None, Unreadable;
      }
      if file.Absent? {
        return true, None, Read;
      }
      if file.Document? {
        var valid := PassesChecks(file.state);
        if valid && DocumentBytes(file.state) <= MAX_PUSH_BYTES {
          return true, Some(file.state), Read;
        }
      }
      file, quarantined := Absent, Some(file);
      ok := *;
      ok := ok || calm;
      return ok, None, if ok then Read else MovedThenFailed;
    }

    /** Gets a registration that Ring has, whatever it takes. What happened is one of the scripts. */
    method Prepare(intercoms: seq<string>) returns (r: Option<Prepared>, ghost s: Script)
      requires client.Valid()
      modifies this`file, this`quarantined, this`rotate, client
      ensures client.Valid() && (Value(), r) == PrepareResult(old(Value()), s)
      ensures old(client.trace) <= client.trace && Genuine(s)
      ensures r.Some? ==> Through(old(client.trace), r.value.state.registration.fcmToken)
      ensures r.Some? ==> r.value.devices == intercoms
      ensures old(Fair()) ==> r.Some?
      ensures old(Fair()) && !old(rotate) && old(file).Document? && Loadable(old(file).state) ==>
        r.value.state == old(file).state
      ensures old(Fair()) && (old(rotate) || !old(file).Document? || !Loadable(old(file).state)) ==>
        r.value.state == NewState(offer)
    {
      s := IDLE;
      var ok, stored, load := Load();
      s := s.(load := load);
      if !ok {
        return None, s;
      }
      if stored.None? {
        r, s := RegisterFirst(intercoms);
        return;
      }
      r, s := Keep(stored.value, intercoms);
    }

    method Keep(state: PushState, intercoms: seq<string>) returns (r: Option<Prepared>, ghost s: Script)
      requires client.Valid()
      modifies this`file, this`rotate, client
      ensures client.Valid() && s.load.Read? && (Value(), r) == Kept(old(Value()), state, s)
      ensures old(client.trace) <= client.trace && Genuine(s)
      ensures r.Some? ==> Through(old(client.trace), r.value.state.registration.fcmToken)
      ensures r.Some? ==> r.value.devices == intercoms
      ensures old(Fair()) && RingClients.ValidToken(state.registration.fcmToken) ==>
        r.Some? && r.value.state == if old(rotate) then NewState(offer) else state
    {
      s := IDLE;
      if rotate {
        rotate := false;
        r, s := Rotate(intercoms);
        if r.Some? {
          return;
        }
        var touch := Busy();
        s := s.(between := touch);
      }
      ghost var before := client.trace;
      var devices, h := HandOffToken(state.registration.fcmToken, intercoms);
      s := s.(oldHandOff := h);
      if devices.Some? && RingClients.NothingLost(old(client.trace), client.trace) {
        RingClients.NothingLostSince(old(client.trace), before, client.trace);
      }
      r := if devices.None? then None else Some(Prepared(state, devices.value));
    }

    /** Requests of others while no lock is held. */
    method Busy() returns (ghost touch: Touch)
      requires client.Valid()
      modifies client
      ensures client.Valid() && old(client.trace) <= client.trace && Value() == Shaken(old(Value()), touch)
    {
      client.Others();
      touch := TouchOf(old(Value()).ring, client.pushToken, RequestTrace.RingRecord(client.trace));
    }

    method Register() returns (r: Option<Registration>)
      ensures calm ==> r == Some(offer)
    {
      r := *;
      if calm {
        r := Some(offer);
      }
    }

    /** Nothing fails, and the registrar's offer is usable. */
    ghost predicate Fair()
      reads this, client
    {
      calm && client.Fair() && RingClients.ValidToken(offer.fcmToken) && Fits(NewState(offer))
    }

    method RegisterFirst(intercoms: seq<string>) returns (r: Option<Prepared>, ghost s: Script)
      requires client.Valid()
      modifies this`file, this`rotate, client
      ensures client.Valid() && s.load.Read? && (Value(), r) == Registered(old(Value()), s)
      ensures old(client.trace) <= client.trace && Genuine(s)
      ensures r.Some? ==> Through(old(client.trace), r.value.state.registration.fcmToken)
      ensures r.Some? ==> r.value.devices == intercoms
      ensures old(Fair()) ==> r.Some? && r.value.state == NewState(offer)
    {
      s := IDLE;
      var registration := Register();
      s := s.(registration := registration);
      if registration.None? {
        return None, s;
      }
      var state := NewState(registration.value);
      var ok, o := Persist(state);
      s := s.(persist := o);
      if !ok {
        return None, s;
      }
      var devices, h := HandOffToken(state.registration.fcmToken, intercoms);
      s := s.(newHandOff := h);
      if devices.None? {
        return None, s;
      }
      rotate := false;
      r := Some(Prepared(state, devices.value));
    }

    method Rotate(intercoms: seq<string>) returns (r: Option<Prepared>, ghost s: Script)
      requires client.Valid()
      modifies this`file, client
      ensures client.Valid() && s.load.Read? && (Value(), r) == Rotated(old(Value()), s)
      ensures old(client.trace) <= client.trace && Genuine(s)
      ensures r.Some? ==> Through(old(client.trace), r.value.state.registration.fcmToken)
      ensures r.Some? ==> r.value.devices == intercoms
      ensures old(Fair()) ==> r.Some? && r.value.state == NewState(offer)
    {
      s := IDLE;
      var registration := Register();
      s := s.(registration := registration);
      if registration.None? {
        return None, s;
      }
      var state := NewState(registration.value);
      var devices, h := HandOffToken(state.registration.fcmToken, intercoms);
      s := s.(newHandOff := h);
      if devices.None? {
        return None, s;
      }
      var ok, o := Persist(state);
      s := s.(persist := o);
      r := if ok then Some(Prepared(state, devices.value)) else None;
    }

    /** Changes the registration in use and writes it; a failed write ends the connection. */
    method Restore(state: PushState) returns (ghost o: PersistOutcome)
      modifies this`file, this`current
      ensures Value() == Restored(old(Value()), state, o)
    {
      var ok;
      ok, o := Persist(state);
      current := if ok then Some(state) else None;
    }

    /** A request of somebody else on the same client. Unless a restore failed, it leaves an agreeing record alone. */
    method Serve(task: Task) returns (r: RingClients.Outcome, ghost touch: Touch)
      requires client.Valid() && (task.Discovery? || task.Operation? || task.StreamTicket?)
      modifies client
      ensures client.Valid() && Value() == Next(old(Value()), Other(touch))
      ensures old(client.trace) <= client.trace
      ensures RingClients.KeepsRecord(old(client.trace), client.trace, client.pushToken)
    {
      if task.Discovery? {
        r := client.DiscoveryBody();
      } else if task.Operation? {
        r := client.VendorRequest(task.name);
      } else {
        r := client.StreamGrant();
      }
      touch := TouchOf(old(Value()).ring, client.pushToken, RequestTrace.RingRecord(client.trace));
    }

    /** A new enrollment: the next client starts from the new session and knows no push token. */
    method Replace(token: string)
      requires client.Valid()
      modifies this`client
      ensures client.Valid() && fresh(client) && Value() == Next(old(Value()), Enroll)
    {
      client := new RingClients.RingClient(client.now, token, false, [], []);
    }

    method Perform(task: Task) returns (ghost step: Step)
      requires client.Valid() && Held()
      modifies this, client
      ensures client.Valid() && Held() && Value() == Next(old(Value()), step) && Real(step)
      ensures replaced == (step.Enroll? || (!step.Prepare? && old(replaced)))
      ensures client == old(client) || fresh(client)
    {
      match task {
        case PlanRotation =>
          rotate := true;
          step := Plan;
        case Reconnect(intercoms) => step := Connect(intercoms);
        case NewDeviceSession(gcm) => step := ChangeSession(gcm);
        case Message(id) => step := Confirm(id);
        case Reenroll(token) =>
          Replace(token);
          step := Enroll;
          replaced := true;
        case End =>
          current := None;
          step := Disconnect;
        case _ => step := ServeOther(task);
      }
    }

    method Connect(intercoms: seq<string>) returns (ghost step: Step)
      requires client.Valid()
      modifies this`file, this`quarantined, this`rotate, this`current, this`mark, this`replaced, client
      ensures client.Valid() && Held() && Value() == Next(old(Value()), step)
      ensures step.Prepare? && Real(step) && !replaced
    {
      mark, replaced := client.trace, false;
      var r, s := Prepare(intercoms);
      current := if r.Some? then Some(r.value.state) else None;
      step := Step.Prepare(s);
    }

    method ServeOther(task: Task) returns (ghost step: Step)
      requires client.Valid() && Held() && (task.Discovery? || task.Operation? || task.StreamTicket?)
      modifies client
      ensures client.Valid() && Held() && Value() == Next(old(Value()), step) && step.Other?
    {
      ghost var before := client.trace;
      var r, touch := Serve(task);
      step := Other(touch);
      if current.Some? && !replaced && RingClients.NothingLost(mark, client.trace) {
        RingClients.NothingLostSince(mark, before, client.trace);
      }
    }

    /** Takes a message id over unless it is unfit or known, and forgets the oldest over a hundred. */
    method Remember(state: PushState, id: string) returns (r: PushState)
      ensures r == Remembered(state, id)
    {
      r := state;
      if |id| == 0 || |id| > 512 {
        return;
      }
      for i := 0 to |state.persistentIds|
        invariant r == state && forall k :: 0 <= k < i ==> state.persistentIds[k] != id
      {
        if state.persistentIds[i] == id {
          return;
        }
      }
      var ids := state.persistentIds + [id];
      if |ids| > MAX_PERSISTENT_IDS {
        ids := ids[1..];
      }
      r := state.(persistentIds := ids);
    }

    /** The checks a stored document has to pass. */
    method PassesChecks(state: PushState) returns (ok: bool)
      ensures ok <==> ValidDocument(state)
    {
      var token := state.registration.fcmToken;
      if |token| < 32 || |token| > 4096 || |state.persistentIds| > 100 {
        return false;
      }
      for i := 0 to |token|
        invariant forall k :: 0 <= k < i ==> '!' <= token[k] <= '~'
      {
        if !('!' <= token[i] <= '~') {
          return false;
        }
      }
      for i := 0 to |state.persistentIds|
        invariant forall k :: 0 <= k < i ==> AdmissibleId(state.persistentIds[k])
      {
        var id := state.persistentIds[i];
        var ascii := AllAscii(id);
        if |id| == 0 || |id| > 512 || !ascii {
          return false;
        }
      }
      ok := true;
    }

    method AllAscii(s: string) returns (ok: bool)
      ensures ok <==> IsAscii(s)
    {
      for i := 0 to |s|
        invariant forall k :: 0 <= k < i ==> s[k] as int <= 127
      {
        if s[i] as int > 127 {
          return false;
        }
      }
      ok := true;
    }

    method ChangeSession(gcm: string) returns (ghost step: Step)
      requires Held()
      modifies this`file, this`current
      ensures Held() && Value() == Next(old(Value()), step) && (step.CheckIn? || step.Acknowledge?)
    {
      step := CheckIn(gcm, NotWritten);
      if current.Some? {
        var o := Restore(current.value.(registration := current.value.registration.(gcm := gcm)));
        step := CheckIn(gcm, o);
      }
    }

    method Confirm(id: string) returns (ghost step: Step)
      requires Held()
      modifies this`file, this`current
      ensures Held() && Value() == Next(old(Value()), step) && (step.CheckIn? || step.Acknowledge?)
    {
      step := Acknowledge(id, NotWritten);
      if current.Some? {
        var state := Remember(current.value, id);
        var o := Restore(state);
        step := Acknowledge(id, o);
      }
    }

    /** Whatever the worker and the other users of the client do, in whatever order and however it turns out, is a
        run of steps, and the laws below hold for every run. Ring's record holds the token of the connected listener
        unless, since its prepare began, a restore failed, a session registration failed after Ring had carried it
        out, or an enrollment replaced the client. */
    method Work(tasks: seq<Task>) returns (ghost steps: seq<Step>)
      requires client.Valid() && current.None?
      modifies this, client
      ensures client.Valid() && Value() == Run(old(Value()), steps) && |steps| == |tasks|
      ensures Held() && replaced == Replaced(steps)
      ensures forall i :: 0 <= i < |steps| ==> Real(steps[i])
    {
      steps := [];
      replaced := false;
      for i := 0 to |tasks|
        invariant client.Valid() && Value() == Run(old(Value()), steps) && |steps| == i
        invariant Held() && replaced == Replaced(steps)
        invariant forall k :: 0 <= k < |steps| ==> Real(steps[k])
        invariant client == old(client) || fresh(client)
      {
        var step := Perform(tasks[i]);
        assert (steps + [step])[..|steps|] == steps;
        steps := steps + [step];
      }
    }
  }

  predicate Real(step: Step) {
    step.Prepare? ==> Genuine(step.script)
  }

  /** Ring accepts a hand-off only of a valid token. */
  predicate Genuine(s: Script) {
    s.registration.Some? && !s.newHandOff.NotAccepted? ==> RingClients.ValidToken(s.registration.value.fcmToken)
  }

  const IDLE := Script(Read, None, NotAccepted(Untouched, false), NotWritten, Untouched, NotAccepted(Untouched, false))

  function TouchOf(before: Option<string>, token: Option<string>, after: Option<string>): Touch {
    if after == before then Untouched else if after == token then Set else Dropped
  }

  // ------------------------------------------------------------------ one prepare

  /** Ring's record, the file and the returned registration hold the same token. */
  predicate Agree(w: World, p: Prepared) {
    w.ring == Some(p.state.registration.fcmToken) && w.file == Document(p.state)
  }

  predicate Rotating(w: World) {
    w.rotate && w.file.Document? && Loadable(w.file.state)
  }

  /** The rotation got as far as writing the file, but reported a failure after the rename. */
  predicate HalfWritten(w: World, s: Script) {
    && Rotating(w) && s.registration.Some? && !s.newHandOff.NotAccepted?
    && s.persist.WrittenButReportedFailed? && Fits(NewState(s.registration.value))
    && NewState(s.registration.value) != w.file.state
  }

  /** Whenever `prepare` succeeds, the file holds what it returns and the client remembers its token, for every pattern
      of step failures except one: a rotation whose rename happened although its persist reported a failure. In
      exactly that case the file does not. Ring's own copy is what `PushListener.Prepare` speaks of. */
  lemma CopiesAgreeExactlyUnlessHalfWritten(w: World, s: Script)
    requires PrepareResult(w, s).1.Some?
    ensures var (after, p) := PrepareResult(w, s);
            && (after.file == Document(p.value.state) <==> !HalfWritten(w, s))
            && after.remembered == Some(p.value.state.registration.fcmToken)
  {
  }

  /** Make before break: a loadable stored registration stays in the file, or is replaced by one that Ring
      has already accepted; it is never lost, whatever fails. */
  lemma ReplacedOnlyByHandedOff(w: World, s: Script)
    requires w.file.Document? && Loadable(w.file.state)
    ensures var (after, _) := PrepareResult(w, s);
            && after.quarantined == w.quarantined
            && after.file.Document?
            && (after.file != w.file ==>
                  && w.rotate && s.registration.Some? && !s.newHandOff.NotAccepted?
                  && after.file == Document(NewState(s.registration.value)))
  {
  }

  /** A failed rotation keeps and uses the old registration, and is not tried again by itself. */
  lemma FailedRotationFallsBack(w: World, s: Script)
    requires s.load.Read? && Rotating(w) && !HalfWritten(w, s)
    requires Rotated(w.(rotate := false), s).1.None? && s.oldHandOff.Accepted?
    ensures var (after, p) := PrepareResult(w, s);
            !after.rotate && p == Some(Prepared(w.file.state, s.oldHandOff.devices)) && Agree(after, p.value)
  {
  }

  /** Storing and loading a registration is the identity exactly for valid documents within the size limit. */
  lemma StoreRoundTrip(w: World, state: PushState)
    ensures Loaded(Persisted(w, state, Written)).1 == Some(state) <==>
            ValidDocument(state) && DocumentBytes(state) <= 65536
  {
  }

  // The JSON text behind the byte counts

  const HEX := "0123456789abcdef"

  function EscapedText(c: char): string {
    if c == '"' then "\\\"" else if c == '\\' then "\\\\"
    else if c as int == 8 then "\\b" else if c as int == 9 then "\\t" else if c as int == 10 then "\\n"
    else if c as int == 12 then "\\f" else if c as int == 13 then "\\r"
    else if c as int < 32 then "\\u00" + [HEX[c as int / 16], HEX[c as int % 16]]
    else [c]
  }

  function StringText(s: string): string {
    if s == "" then "" else StringText(s[..|s| - 1]) + EscapedText(s[|s| - 1])
  }

  function ListText(ids: seq<string>): string {
    if ids == [] then ""
    else
      ListText(ids[..|ids| - 1]) + (if |ids| > 1 then "," else "") + "\"" + StringText(ids[|ids| - 1]) + "\""
  }

  /** The byte counts are the lengths of the texts that JSON prescribes (section 7 of RFC 8259). */
  lemma {:induction false} EscapedIsTextLength(s: string)
    ensures Escaped(s) == |StringText(s)|
  {
    if s != "" {
      EscapedIsTextLength(s[..|s| - 1]);
    }
  }

  lemma {:induction false} QuotedIsTextLength(ids: seq<string>)
    ensures Quoted(ids) == |ListText(ids)|
  {
    if ids != [] {
      QuotedIsTextLength(ids[..|ids| - 1]);
      EscapedIsTextLength(ids[|ids| - 1]);
    }
  }

  lemma FrameLength()
    ensures FRAME_BYTES == |"{'schema_version':1,'registration':,'persistent_ids':[]}"|
  {
  }

  /** The size limit is a limit of its own: a hundred admissible ids of quotes make a document that is refused. */
  lemma QuotesDoNotFit(state: PushState)
    requires |state.persistentIds| == MAX_PERSISTENT_IDS
    requires forall id :: id in state.persistentIds ==> |id| == 512 && forall i :: 0 <= i < |id| ==> id[i] == '"'
    ensures !Fits(state) && forall id :: id in state.persistentIds ==> AdmissibleId(id)
  {
    forall id | id in state.persistentIds ensures Escaped(id) == 1024 {
      QuotesDouble(id);
    }
    QuotedAtLeast(state.persistentIds, 1024);
  }

  lemma {:induction false} QuotesDouble(s: string)
    requires forall i :: 0 <= i < |s| ==> s[i] == '"'
    ensures Escaped(s) == 2 * |s|
  {
    if s != "" {
      QuotesDouble(s[..|s| - 1]);
    }
  }

  lemma {:induction false} QuotedAtLeast(ids: seq<string>, each: nat)
    requires forall id :: id in ids ==> Escaped(id) >= each
    ensures Quoted(ids) >= |ids| * each
  {
    if ids != [] {
      var front := ids[..|ids| - 1];
      QuotedAtLeast(front, each);
      assert |ids| * each == |front| * each + each;
    }
  }

  /** `remember` keeps a document valid exactly when the new id is ASCII or not taken over. */
  lemma RememberKeepsLoadable(state: PushState, id: string)
    requires ValidDocument(state)
    ensures ValidDocument(Remembered(state, id)) <==> Ignored(state, id) || IsAscii(id)
  {
    if !Ignored(state, id) {
      var ids := state.persistentIds + [id];
      var after := Remembered(state, id).persistentIds;
      assert after[|after| - 1] == id;
      assert forall i :: 0 <= i < |after| - 1 ==> after[i] in state.persistentIds;
    }
  }

  // ------------------------------------------------------------------ message ids

  function Newest100(ids: seq<string>): seq<string> {
    if |ids| > 100 then ids[|ids| - 100..] else ids
  }

  /** All ids taken over so far, oldest first: an id is taken unless it is empty, over 512 bytes, or among the newest
      hundred taken. */
  function Taken(start: seq<string>, messages: seq<string>): seq<string> {
    if messages == [] then start
    else
      var before, id := Taken(start, messages[..|messages| - 1]), messages[|messages| - 1];
      if 0 < |id| <= 512 && id !in Newest100(before) then before + [id] else before
  }

  /** The registration after acknowledging some messages. */
  function Acknowledged(state: PushState, messages: seq<string>): PushState {
    if messages == [] then state
    else Remembered(Acknowledged(state, messages[..|messages| - 1]), messages[|messages| - 1])
  }

  predicate NoRepeats(ids: seq<string>) {
    forall i, j :: 0 <= i < j < |ids| ==> ids[i] != ids[j]
  }

  /** Over every run of acknowledgements the stored ids are the newest hundred of all ids taken over, in order and
      without repeats; so no id is forgotten before a hundred newer ones were taken. The registration stays. */
  lemma {:induction false} StoredIdsAreTheNewestTaken(state: PushState, messages: seq<string>)
    requires |state.persistentIds| <= 100 && NoRepeats(state.persistentIds)
    ensures var after, taken := Acknowledged(state, messages), Taken(state.persistentIds, messages);
            && after.registration == state.registration && NoRepeats(after.persistentIds)
            && |after.persistentIds| == (if |taken| > 100 then 100 else |taken|)
            && after.persistentIds == taken[|taken| - |after.persistentIds|..]
  {
    if messages != [] {
      var front, id := messages[..|messages| - 1], messages[|messages| - 1];
      StoredIdsAreTheNewestTaken(state, front);
      TakesOne(Acknowledged(state, front), Taken(state.persistentIds, front), id);
    }
  }

  lemma TakesOne(state: PushState, taken: seq<string>, id: string)
    requires state.persistentIds == Newest100(taken) && NoRepeats(state.persistentIds)
    ensures var more := if 0 < |id| <= 512 && id !in Newest100(taken) then taken + [id] else taken;
            var after := Remembered(state, id);
            after.persistentIds == Newest100(more) && NoRepeats(after.persistentIds)
            && after.registration == state.registration
  {
  }

  /** An id taken at position `i` is stored exactly until a hundred newer ones were taken. */
  lemma IdIsKeptForAHundred(state: PushState, messages: seq<string>, i: nat)
    requires |state.persistentIds| <= 100 && NoRepeats(state.persistentIds)
    requires var taken := Taken(state.persistentIds, messages); i < |taken| && |taken| - i <= 100
    ensures Taken(state.persistentIds, messages)[i] in Acknowledged(state, messages).persistentIds
  {
    StoredIdsAreTheNewestTaken(state, messages);
    var taken, kept := Taken(state.persistentIds, messages), Acknowledged(state, messages).persistentIds;
    assert taken[i] == kept[i - (|taken| - |kept|)];
  }

  /** Confirming messages one by one while all goes well acknowledges them. */
  lemma {:induction false} ConfirmedIsAcknowledged(w: World, messages: seq<string>)
    requires w.current.Some?
    requires forall k :: 0 <= k <= |messages| ==> Fits(Acknowledged(w.current.value, messages[..k]))
    ensures var v := Run(w, Confirmations(messages));
            v.current == Some(Acknowledged(w.current.value, messages))
  {
    if messages != [] {
      var front := messages[..|messages| - 1];
      assert forall k :: 0 <= k <= |front| ==> front[..k] == messages[..k];
      ConfirmedIsAcknowledged(w, front);
      assert Confirmations(messages)[..|front|] == Confirmations(front);
      assert messages[..|messages|] == messages;
    }
  }

  function Confirmations(messages: seq<string>): seq<Step> {
    seq(|messages|, k requires 0 <= k < |messages| => Acknowledge(messages[k], Written))
  }

  // ------------------------------------------------------------------ every run

  /** The file is older or newer than the registration in use: the last prepare left it half written, and nothing
      was written since. */
  predicate FileStale(w: World, steps: seq<Step>) {
    if steps == [] then false
    else
      var front, last := steps[..|steps| - 1], steps[|steps| - 1];
      match last
      case Prepare(s) => HalfWritten(Run(w, front), s)
      case CheckIn(_, _) => false
      case Acknowledge(_, _) => false
      case _ => FileStale(w, front)
  }

  /** A new enrollment has replaced the client since the last prepare. */
  predicate Replaced(steps: seq<Step>) {
    if steps == [] then false
    else
      var front, last := steps[..|steps| - 1], steps[|steps| - 1];
      last.Enroll? || (!last.Prepare? && Replaced(front))
  }

  /** How the file and the client stand while a listener is connected. */
  predicate Standing(v: World, stale: bool, replaced: bool) {
    v.current.Some? ==>
      && (v.file == Document(v.current.value) <==> !stale)
      && v.remembered == if replaced then None else Some(v.current.value.registration.fcmToken)
  }

  /** Over every run, with no premise on how any step turns out: while a listener is connected, the file agrees with
      it exactly unless it is stale, and the client remembers the token, so that the next session record sets it
      again, exactly unless an enrollment replaced it. Ring's own copy is what `Work` speaks of. */
  lemma {:induction false} CopiesAgreeThroughout(w: World, steps: seq<Step>)
    requires w.current.None?
    ensures Standing(Run(w, steps), FileStale(w, steps), Replaced(steps))
  {
    if steps != [] {
      var front, last := steps[..|steps| - 1], steps[|steps| - 1];
      CopiesAgreeThroughout(w, front);
      var v := Run(w, front);
      match last
      case Prepare(s) =>
        if PrepareResult(v, s).1.Some? {
          CopiesAgreeExactlyUnlessHalfWritten(v, s);
        }
      case _ => StepStands(v, last, FileStale(w, front), Replaced(front));
    }
  }

  lemma StepStands(v: World, step: Step, stale: bool, replaced: bool)
    requires Standing(v, stale, replaced) && !step.Prepare?
    ensures Standing(Next(v, step), stale && !step.CheckIn? && !step.Acknowledge?, step.Enroll? || replaced)
  {
    match step
    case CheckIn(gcm, o) =>
      if v.current.Some? {
        var state := v.current.value;
        RestoreStands(v, state.(registration := state.registration.(gcm := gcm)), o, stale, replaced);
      }
    case Acknowledge(id, o) =>
      if v.current.Some? {
        RestoreStands(v, Remembered(v.current.value, id), o, stale, replaced);
      }
    case _ =>
  }

  lemma RestoreStands(v: World, state: PushState, o: PersistOutcome, stale: bool, replaced: bool)
    requires Standing(v, stale, replaced) && v.current.Some?
    requires state.registration.fcmToken == v.current.value.registration.fcmToken
    ensures Standing(Restored(v, state, o), false, replaced)
  {
  }

  // ------------------------------------------------------------------ what is never moved aside

  /** The step writes no document that `load` would move aside. */
  predicate Harmless(w: World, step: Step) {
    match step
    case Prepare(s) => WritesNew(w, s) ==> RingClients.ValidToken(s.registration.value.fcmToken)
    case Acknowledge(id, o) =>
      w.current.Some? && !o.NotWritten? && Fits(Remembered(w.current.value, id)) ==>
        Ignored(w.current.value, id) || IsAscii(id)
    case _ => true
  }

  /** The prepare writes a new registration. */
  predicate WritesNew(w: World, s: Script) {
    && s.load.Read? && s.registration.Some? && !s.persist.NotWritten? && Fits(NewState(s.registration.value))
    && (w.file.Absent? || (w.rotate && !s.newHandOff.NotAccepted?))
  }

  predicate Sound(w: World) {
    !Bad(w.file) && (w.current.Some? ==> ValidDocument(w.current.value))
  }

  lemma RotatedFile(w: World, s: Script)
    ensures var (after, p) := Rotated(w, s);
            && after.quarantined == w.quarantined && after.rotate == w.rotate
            && after.file == (if s.registration.Some? && !s.newHandOff.NotAccepted? && !s.persist.NotWritten?
                                 && Fits(NewState(s.registration.value))
                              then Document(NewState(s.registration.value)) else w.file)
            && (p.Some? ==> s.registration.Some? && !s.newHandOff.NotAccepted? && !s.persist.NotWritten?
                            && Fits(NewState(s.registration.value)) && p.value.state == NewState(s.registration.value))
  {
  }

  /** Which document a prepare leaves in the file, and which registration it returns. */
  lemma PreparedFile(w: World, s: Script)
    requires !Bad(w.file)
    ensures var (after, p) := PrepareResult(w, s);
            && after.quarantined == w.quarantined
            && after.file == (if WritesNew(w, s) then Document(NewState(s.registration.value)) else w.file)
            && (p.Some? ==> w.file == Document(p.value.state)
                            || (WritesNew(w, s) && p.value.state == NewState(s.registration.value)))
  {
    if Rotating(w) {
      RotatedFile(w.(rotate := false), s);
    }
  }

  lemma PrepareHarm(w: World, s: Script)
    requires Sound(w)
    ensures Bad(Next(w, Prepare(s)).file) <==> !Harmless(w, Prepare(s))
    ensures Harmless(w, Prepare(s)) ==> Sound(Next(w, Prepare(s))) && Next(w, Prepare(s)).quarantined == w.quarantined
  {
    PreparedFile(w, s);
    if WritesNew(w, s) {
      NewIsValid(s.registration.value);
    }
  }

  lemma NewIsValid(registration: Registration)
    ensures ValidDocument(NewState(registration)) <==> RingClients.ValidToken(registration.fcmToken)
  {
  }

  /** Writing `state` over a sound state. */
  lemma RestoreHarm(w: World, state: PushState, o: PersistOutcome)
    requires Sound(w)
    ensures var v := Restored(w, state, o);
            && (Bad(v.file) <==> !o.NotWritten? && Fits(state) && !ValidDocument(state))
            && (!Bad(v.file) ==> Sound(v)) && v.quarantined == w.quarantined
  {
  }

  /** From a sound state, a step leaves a file that loads exactly when it is harmless. */
  lemma LoadableExactlyAfterHarmless(w: World, step: Step)
    requires Sound(w)
    ensures Bad(Next(w, step).file) <==> !Harmless(w, step)
    ensures Harmless(w, step) ==> Sound(Next(w, step)) && Next(w, step).quarantined == w.quarantined
  {
    match step
    case Prepare(s) => PrepareHarm(w, s);
    case Acknowledge(id, o) =>
      if w.current.Some? {
        RememberKeepsLoadable(w.current.value, id);
        RestoreHarm(w, Remembered(w.current.value, id), o);
      }
    case CheckIn(gcm, o) =>
      if w.current.Some? {
        RestoreHarm(w, w.current.value.(registration := w.current.value.registration.(gcm := gcm)), o);
      }
    case _ =>
  }

  predicate AllHarmless(w: World, steps: seq<Step>) {
    steps != [] ==> AllHarmless(w, steps[..|steps| - 1]) && Harmless(Run(w, steps[..|steps| - 1]), steps[|steps| - 1])
  }

  /** Over every run of harmless steps nothing is ever moved aside. */
  lemma {:induction false} NothingMovedAside(w: World, steps: seq<Step>)
    requires Sound(w) && AllHarmless(w, steps)
    ensures Sound(Run(w, steps)) && Run(w, steps).quarantined == w.quarantined
  {
    if steps != [] {
      NothingMovedAside(w, steps[..|steps| - 1]);
      LoadableExactlyAfterHarmless(Run(w, steps[..|steps| - 1]), steps[|steps| - 1]);
    }
  }

  /** One harmful step is enough: the next prepare that reads the file moves it aside. */
  lemma HarmLosesTheRegistration(w: World, step: Step, s: Script)
    requires Sound(w) && s.load.Read?
    ensures var v := Next(w, step);
            Next(v, Prepare(s)).quarantined == if Harmless(w, step) then w.quarantined else Some(v.file)
  {
    LoadableExactlyAfterHarmless(w, step);
    MovesAsideExactlyBad(Next(w, step), s);
  }

  lemma MovesAsideExactlyBad(v: World, s: Script)
    requires s.load.Read?
    ensures Next(v, Prepare(s)).quarantined == if Bad(v.file) then Some(v.file) else v.quarantined
  {
  }

  /** Of the prepares that happen, only a first registration writes an invalid token: a rotation hands its token off
      before it writes, and the client refuses an invalid one. That first prepare then fails. */
  lemma OnlyAFirstRegistrationHarms(w: World, s: Script)
    requires Sound(w) && Genuine(s) && !Harmless(w, Prepare(s))
    ensures w.file.Absent? && s.newHandOff.NotAccepted? && PrepareResult(w, s).1.None?
  {
  }
}
