/**
 * Staff assignments and scanner sessions: two tables changed by nine
 * operations, and the binding between them that all nine keep.
 */
module StaffBinding {
  import opened Wrappers

  type EventId = nat
  type UserId = nat
  type DeviceId = nat
  type CheckpointId = nat
  type SessionId = nat

  /** An assignment is named by its event and user, which its unique index makes a key. */
  type AssignmentKey = (EventId, UserId)

  datatype CheckpointType = EntryGate | ExitGate | Booth | SessionRoom | VipArea | InternalPoint | WorkshopArea | Other

  datatype Mode = Entry | Exit | Checkpoint | BoothVisit | SessionAttendance | VipAccess

  datatype Assignment = Assignment(checkpointId: Option<CheckpointId>, deviceId: Option<DeviceId>, active: bool,
                                   notes: Option<string>)

  datatype Session = Session(eventId: EventId, userId: UserId, deviceId: DeviceId, checkpointId: CheckpointId,
                             mode: Mode,
                             active: bool, startedAt: nat, endedAt: Option<nat>, lastSeenAt: nat)

  datatype Tables = Tables(assignments: map<AssignmentKey, Assignment>, sessions: map<SessionId, Session>,
                           nextId: SessionId)

  datatype Device = Device(eventId: EventId, active: bool)
  datatype Gate = Gate(eventId: EventId, active: bool, kind: CheckpointType)

  /** The tables a request reads but does not write, and its clock. */
  datatype Env = Env(openEvents: set<EventId>, staff: set<UserId>, devices: map<DeviceId, Device>,
                     gates: map<CheckpointId, Gate>, now: nat)

  datatype Role = Staff | SuperAdmin | OtherRole

  datatype Caller = Caller(userId: UserId, role: Role)

  function ModeFor(kind: CheckpointType): Mode {
    match kind
    case EntryGate => Entry
    case ExitGate => Exit
    case Booth => BoothVisit
    case SessionRoom => SessionAttendance
    case VipArea => VipAccess
    case _ => Checkpoint
  }

  // ----- The invariant ---------------------------------------------------

  ghost predicate OneActiveAssignment(t: Tables) {
    forall a, b ::
      a in t.assignments && b in t.assignments && t.assignments[a].active && t.assignments[b].active && a.1 == b.1 ==>
      a == b
  }

  ghost predicate OneActiveSession(t: Tables) {
    forall s, r :: s in t.sessions && r in t.sessions && t.sessions[s].active && t.sessions[r].active ==>
      && (t.sessions[s].userId == t.sessions[r].userId ==> s == r)
      && (t.sessions[s].eventId == t.sessions[r].eventId && t.sessions[s].deviceId == t.sessions[r].deviceId ==> s == r)
  }

  predicate Bound(t: Tables, s: Session) {
    var key := (s.eventId, s.userId);
    && key in t.assignments && t.assignments[key].active
    && t.assignments[key].deviceId == Some(s.deviceId) && t.assignments[key].checkpointId == Some(s.checkpointId)
  }

  ghost predicate SessionsBound(t: Tables) {
    forall s :: s in t.sessions ==>
      s < t.nextId && t.sessions[s].active == t.sessions[s].endedAt.None?
        && (t.sessions[s].active ==> Bound(t, t.sessions[s]))
  }

  ghost predicate Inv(t: Tables) { OneActiveAssignment(t) && OneActiveSession(t) && SessionsBound(t) }

  /** ENDED is final: an ended session never changes again, and no session changes who or where it is for. */
  ghost predicate EndedStays(before: Tables, after: Tables) {
    forall s :: s in before.sessions && s in after.sessions ==>
      && (!before.sessions[s].active ==> after.sessions[s] == before.sessions[s])
      && (var a, b := before.sessions[s], after.sessions[s];
          a.userId == b.userId && a.eventId == b.eventId && a.deviceId == b.deviceId
            && a.checkpointId == b.checkpointId)
  }

  // ----- The two bulk updates --------------------------------------------

  function EndIf(sessions: map<SessionId, Session>, chosen: set<SessionId>, now: nat): map<SessionId, Session> {
    map s | s in sessions ::
      if s in chosen && sessions[s].active then sessions[s].(active := false, endedAt := Some(now)) else sessions[s]
  }

  function OfUser(t: Tables, u: UserId): set<SessionId> { set s | s in t.sessions && t.sessions[s].userId == u }

  function OfUserAt(t: Tables, e: EventId, u: UserId): set<SessionId> {
    set s | s in t.sessions && t.sessions[s].userId == u && t.sessions[s].eventId == e
  }

  function OnDevice(t: Tables, e: EventId, d: DeviceId): set<SessionId> {
    set s | s in t.sessions && t.sessions[s].eventId == e && t.sessions[s].deviceId == d
  }

  function EndSessions(t: Tables, chosen: set<SessionId>, now: nat): Tables {
    t.(sessions := EndIf(t.sessions, chosen, now))
  }

  function Deactivate(t: Tables, u: UserId): Tables {
    t.(assignments := map k | k in t.assignments ::
       if k.1 == u then t.assignments[k].(active := false) else t.assignments[k])
  }

  function Put(t: Tables, key: AssignmentKey, a: Assignment): Tables { t.(assignments := t.assignments[key := a]) }

  // ----- Operations on assignments; None when the request is refused -----

  predicate DeviceReady(env: Env, d: DeviceId, e: EventId) { d in env.devices && env.devices[d] == Device(e, true) }

  predicate GateReady(env: Env, c: CheckpointId, e: EventId) {
    c in env.gates && env.gates[c].eventId == e && env.gates[c].active
  }

  /** Make one assignment the user's only active one; no session of the user survives it. */
  function Activated(t: Tables, key: AssignmentKey, a: Assignment, now: nat): Tables {
    Put(Deactivate(EndSessions(t, OfUser(t, key.1), now), key.1), key, a.(active := true))
  }

  function Create(t: Tables, env: Env, key: AssignmentKey, c: CheckpointId, d: DeviceId,
                  notes: Option<string>): Option<Tables>
  {
    if key.0 in env.openEvents && key.1 in env.staff && GateReady(env, c, key.0) && DeviceReady(env, d, key.0)
    then
      var kept := if notes.None? && key in t.assignments then t.assignments[key].notes else notes;
      Some(Activated(t, key, Assignment(Some(c), Some(d), true, kept), env.now))
    else None
  }

  function Or<T>(a: Option<T>, b: Option<T>): Option<T> { if a.Some? then a else b }

  datatype Change = Change(checkpointId: Option<CheckpointId>, deviceId: Option<DeviceId>, active: Option<bool>,
                           notes: Option<string>)

  function Merged(a: Assignment, change: Change): Assignment {
    Assignment(Or(change.checkpointId, a.checkpointId), Or(change.deviceId, a.deviceId),
               if change.active.Some? then change.active.value else a.active, Or(change.notes, a.notes))
  }

  predicate Moves(a: Assignment, change: Change) {
    (change.checkpointId.Some? && change.checkpointId != a.checkpointId)
      || (change.deviceId.Some? && change.deviceId != a.deviceId)
  }

  function Update(t: Tables, env: Env, key: AssignmentKey, change: Change): Option<Tables> {
    if key !in t.assignments || key.0 !in env.openEvents || key.1 !in env.staff then None
    else
      var a := t.assignments[key];
      var merged := Merged(a, change);
      if merged.checkpointId.None? || merged.deviceId.None?
         || !GateReady(env, merged.checkpointId.value, key.0) || !DeviceReady(env, merged.deviceId.value, key.0)
      then None
      else if change.active == Some(true) then Some(Activated(t, key, merged, env.now))
      else if change.active == Some(false) || Moves(a, change)
      then Some(Put(EndSessions(t, OfUserAt(t, key.0, key.1), env.now), key, merged))
      else Some(Put(t, key, merged))
  }

  function SetActive(t: Tables, env: Env, key: AssignmentKey, active: bool): Option<Tables> {
    if key !in t.assignments || key.0 !in env.openEvents then None
    else
      var a := t.assignments[key];
      if !active then Some(Put(EndSessions(t, OfUserAt(t, key.0, key.1), env.now), key, a.(active := false)))
      else if key.1 !in env.staff || a.checkpointId.None? || a.deviceId.None?
              || !GateReady(env, a.checkpointId.value, key.0) || !DeviceReady(env, a.deviceId.value, key.0)
      then None
      else Some(Activated(t, key, a, env.now))
  }

  // ----- Operations on sessions ------------------------------------------

  datatype Wanted = Wanted(eventId: EventId, userId: Option<UserId>, deviceId: DeviceId, checkpointId: CheckpointId,
                           mode: Mode)

  function ResolveUser(caller: Caller, userId: Option<UserId>): Option<UserId> {
    match caller.role
    case Staff => if userId.None? || userId.value == caller.userId then Some(caller.userId) else None
    case SuperAdmin => userId
    case OtherRole => None
  }

  predicate MayStart(t: Tables, env: Env, u: UserId, w: Wanted) {
    && w.eventId in env.openEvents && u in env.staff && DeviceReady(env, w.deviceId, w.eventId)
    && GateReady(env, w.checkpointId, w.eventId)
    && (var key := (w.eventId, u);
        key in t.assignments && t.assignments[key].active && t.assignments[key].deviceId == Some(w.deviceId)
        && t.assignments[key].checkpointId == Some(w.checkpointId))
    && w.mode == ModeFor(env.gates[w.checkpointId].kind)
  }

  /** Neither the user nor the device keeps an active session. */
  function Cleared(t: Tables, u: UserId, w: Wanted, now: nat): Tables {
    EndSessions(EndSessions(t, OfUser(t, u), now), OnDevice(t, w.eventId, w.deviceId), now)
  }

  function Started(t: Tables, env: Env, u: UserId, w: Wanted): Tables {
    var ended := Cleared(t, u, w, env.now);
    ended.(sessions :=
           ended.sessions[t.nextId :=
                          Session(w.eventId, u, w.deviceId, w.checkpointId, w.mode, true, env.now, None, env.now)],
           nextId := t.nextId + 1)
  }

  function Start(t: Tables, env: Env, caller: Caller, w: Wanted): Option<Tables> {
    var u := ResolveUser(caller, w.userId);
    if u.Some? && MayStart(t, env, u.value, w) then Some(Started(t, env, u.value, w)) else None
  }

  /** What the session of an active assignment looks like. */
  predicate Fits(s: Session, key: AssignmentKey, a: Assignment, mode: Mode) {
    && s.active && s.endedAt.None? && s.eventId == key.0 && s.userId == key.1
    && Some(s.deviceId) == a.deviceId && Some(s.checkpointId) == a.checkpointId && s.mode == mode
  }

  predicate Reusable(t: Tables, key: AssignmentKey, mode: Mode, s: SessionId)
    requires key in t.assignments
  {
    s in t.sessions && Fits(t.sessions[s], key, t.assignments[key], mode)
  }

  /** The refresh of a session that is used again: all others of its user or device end, it is seen now. */
  function Refreshed(t: Tables, s: SessionId, now: nat): Tables
    requires s in t.sessions
  {
    var keep := t.sessions[s];
    var ended := EndSessions(t, OfUser(t, keep.userId) + OnDevice(t, keep.eventId, keep.deviceId) - {s}, now);
    ended.(sessions := ended.sessions[s := keep.(lastSeenAt := now)])
  }

  predicate ReadyToScan(t: Tables, env: Env, key: AssignmentKey) {
    && key in t.assignments && t.assignments[key].active
    && t.assignments[key].checkpointId.Some? && t.assignments[key].checkpointId.value in env.gates
    && env.gates[t.assignments[key].checkpointId.value].active
    && t.assignments[key].deviceId.Some? && t.assignments[key].deviceId.value in env.devices
    && env.devices[t.assignments[key].deviceId.value].active
  }

  function ModeOf(t: Tables, env: Env, key: AssignmentKey): Mode
    requires ReadyToScan(t, env, key)
  {
    ModeFor(env.gates[t.assignments[key].checkpointId.value].kind)
  }

  function WantedFor(t: Tables, env: Env, key: AssignmentKey): Wanted
    requires ReadyToScan(t, env, key)
  {
    Wanted(key.0, Some(key.1), t.assignments[key].deviceId.value, t.assignments[key].checkpointId.value,
           ModeOf(t, env, key))
  }

  /** `key` and `found` are what the two look-ups answered. */
  function StartMine(t: Tables, env: Env, caller: Caller, key: AssignmentKey, found: Option<SessionId>): Option<Tables>
    requires ReadyToScan(t, env, key) ==> (found.Some? ==> found.value in t.sessions)
  {
    if caller.role != Staff || caller.userId !in env.staff || !ReadyToScan(t, env, key) then None
    else if found.Some? then Some(Refreshed(t, found.value, env.now))
    else Start(t, env, caller, WantedFor(t, env, key))
  }

  function EndMine(t: Tables, env: Env, caller: Caller): Option<Tables> {
    if caller.role != Staff then None else Some(EndSessions(t, OfUser(t, caller.userId), env.now))
  }

  function End(t: Tables, env: Env, s: SessionId): Option<Tables> {
    if s !in t.sessions then None else Some(EndSessions(t, {s}, env.now))
  }

  /** Deleting checkpoints deletes the sessions and the assignments at them. */
  function DropCheckpoints(t: Tables, gone: set<CheckpointId>): Tables {
    t.(sessions := map s | s in t.sessions && t.sessions[s].checkpointId !in gone :: t.sessions[s],
       assignments := map k | k in t.assignments
         && !(t.assignments[k].checkpointId.Some? && t.assignments[k].checkpointId.value in gone)
                        :: t.assignments[k])
  }

  // ----- Runs -------------------------------------------------------------

  datatype Request =
    | CreateAssignment(key: AssignmentKey, checkpointId: CheckpointId, deviceId: DeviceId, notes: Option<string>)
    | UpdateAssignment(key: AssignmentKey, change: Change)
    | SetAssignmentActive(key: AssignmentKey, active: bool)
    | StartSession(caller: Caller, wanted: Wanted)
    | StartMySession(caller: Caller, key: AssignmentKey, found: Option<SessionId>)
    | EndMySession(caller: Caller)
    | EndSession(session: SessionId)
    | DeleteCheckpoints(gone: set<CheckpointId>)

  /** The look-ups of startMySession: an active assignment of the caller, and a fitting session when there is one. */
  predicate Answers(t: Tables, env: Env, r: Request) {
    r.StartMySession? && ReadyToScan(t, env, r.key) ==>
      && r.key.1 == r.caller.userId
      && (r.found.Some? ==> Reusable(t, r.key, ModeOf(t, env, r.key), r.found.value))
      && (r.found.None? ==> forall s :: s in t.sessions ==> !Reusable(t, r.key, ModeOf(t, env, r.key), s))
  }

  function Attempt(t: Tables, env: Env, r: Request): Option<Tables>
    requires Answers(t, env, r)
  {
    match r
    case CreateAssignment(key, c, d, notes) => Create(t, env, key, c, d, notes)
    case UpdateAssignment(key, change) => Update(t, env, key, change)
    case SetAssignmentActive(key, active) => SetActive(t, env, key, active)
    case StartSession(caller, w) => Start(t, env, caller, w)
    case StartMySession(caller, key, found) => StartMine(t, env, caller, key, found)
    case EndMySession(caller) => EndMine(t, env, caller)
    case EndSession(s) => End(t, env, s)
    case DeleteCheckpoints(gone) => Some(DropCheckpoints(t, gone))
  }

  function Next(t: Tables, env: Env, r: Request): Tables
    requires Answers(t, env, r)
  {
    var after := Attempt(t, env, r);
    if after.Some? then after.value else t
  }

  predicate Answered(t: Tables, steps: seq<(Env, Request)>)
    decreases |steps|
  {
    steps == [] || (Answers(t, steps[0].0, steps[0].1) && Answered(Next(t, steps[0].0, steps[0].1), steps[1..]))
  }

  function Run(t: Tables, steps: seq<(Env, Request)>): Tables
    requires Answered(t, steps)
    decreases |steps|
  {
    if steps == [] then t else Run(Next(t, steps[0].0, steps[0].1), steps[1..])
  }

  // ----- Every operation keeps the binding -------------------------------

  lemma EndingIsSafe(t: Tables, chosen: set<SessionId>, now: nat)
    requires Inv(t)
    ensures Inv(EndSessions(t, chosen, now)) && EndedStays(t, EndSessions(t, chosen, now))
  {
  }

  lemma ActivatedKeepsInv(t: Tables, key: AssignmentKey, a: Assignment, now: nat)
    requires Inv(t)
    ensures Inv(Activated(t, key, a, now)) && EndedStays(t, Activated(t, key, a, now))
  {
    var ended := EndSessions(t, OfUser(t, key.1), now);
    EndingIsSafe(t, OfUser(t, key.1), now);
    var after := Activated(t, key, a, now);
    forall s | s in after.sessions && after.sessions[s].active ensures Bound(after, after.sessions[s]) {
      assert s !in OfUser(t, key.1) && Bound(t, t.sessions[s]);
    }
  }

  lemma PutKeepsInv(t: Tables, key: AssignmentKey, a: Assignment)
    requires Inv(t) && key in t.assignments && (a.active ==> t.assignments[key].active)
    requires a == t.assignments[key].(notes := a.notes)
             || forall s :: s in t.sessions && t.sessions[s].active ==>
                !(t.sessions[s].eventId == key.0 && t.sessions[s].userId == key.1)
    ensures Inv(Put(t, key, a)) && EndedStays(t, Put(t, key, a))
  {
    var after := Put(t, key, a);
    forall s | s in after.sessions && after.sessions[s].active ensures Bound(after, after.sessions[s]) {
      assert Bound(t, t.sessions[s]);
    }
  }

  lemma UpdateKeepsInv(t: Tables, env: Env, key: AssignmentKey, change: Change)
    requires Inv(t) && Update(t, env, key, change).Some?
    ensures Inv(Update(t, env, key, change).value) && EndedStays(t, Update(t, env, key, change).value)
  {
    var a := t.assignments[key];
    var merged := Merged(a, change);
    if change.active == Some(true) {
      ActivatedKeepsInv(t, key, merged, env.now);
    } else if change.active == Some(false) || Moves(a, change) {
      var ended := EndSessions(t, OfUserAt(t, key.0, key.1), env.now);
      EndingIsSafe(t, OfUserAt(t, key.0, key.1), env.now);
      PutKeepsInv(ended, key, merged);
    } else {
      PutKeepsInv(t, key, merged);
    }
  }

  lemma SetActiveKeepsInv(t: Tables, env: Env, key: AssignmentKey, active: bool)
    requires Inv(t) && SetActive(t, env, key, active).Some?
    ensures Inv(SetActive(t, env, key, active).value) && EndedStays(t, SetActive(t, env, key, active).value)
  {
    var a := t.assignments[key];
    if active {
      ActivatedKeepsInv(t, key, a, env.now);
    } else {
      var ended := EndSessions(t, OfUserAt(t, key.0, key.1), env.now);
      EndingIsSafe(t, OfUserAt(t, key.0, key.1), env.now);
      PutKeepsInv(ended, key, a.(active := false));
    }
  }

  lemma StartedKeepsInv(t: Tables, env: Env, u: UserId, w: Wanted)
    requires Inv(t) && MayStart(t, env, u, w)
    ensures Inv(Started(t, env, u, w)) && EndedStays(t, Started(t, env, u, w))
  {
    ClearedIsSafe(t, u, w, env.now);
    OpeningKeepsInv(Cleared(t, u, w, env.now),
                    Session(w.eventId, u, w.deviceId, w.checkpointId, w.mode, true, env.now, None, env.now));
  }

  lemma ClearedIsSafe(t: Tables, u: UserId, w: Wanted, now: nat)
    requires Inv(t)
    ensures var c := Cleared(t, u, w, now);
            && Inv(c) && EndedStays(t, c) && c.nextId == t.nextId && c.assignments == t.assignments
            && forall s :: s in c.sessions && c.sessions[s].active ==>
                 c.sessions[s].userId != u
                   && !(c.sessions[s].eventId == w.eventId && c.sessions[s].deviceId == w.deviceId)
  {
    var first := EndSessions(t, OfUser(t, u), now);
    EndingIsSafe(t, OfUser(t, u), now);
    EndingIsSafe(first, OnDevice(t, w.eventId, w.deviceId), now);
    var c := Cleared(t, u, w, now);
    forall s | s in c.sessions && c.sessions[s].active
      ensures c.sessions[s].userId != u && !(c.sessions[s].eventId == w.eventId && c.sessions[s].deviceId == w.deviceId)
    {
      assert s !in OfUser(t, u) && s !in OnDevice(t, w.eventId, w.deviceId);
    }
  }

  /** A bound session may be added for a user and a device that have none. */
  lemma OpeningKeepsInv(t: Tables, added: Session)
    requires Inv(t) && added.active && added.endedAt.None? && Bound(t, added)
    requires forall s :: s in t.sessions && t.sessions[s].active ==>
               t.sessions[s].userId != added.userId
               && !(t.sessions[s].eventId == added.eventId && t.sessions[s].deviceId == added.deviceId)
    ensures Inv(t.(sessions := t.sessions[t.nextId := added], nextId := t.nextId + 1))
  {
    assert t.nextId !in t.sessions;
    var after := t.(sessions := t.sessions[t.nextId := added], nextId := t.nextId + 1);
    forall s | s in after.sessions && after.sessions[s].active ensures Bound(after, after.sessions[s]) {
      assert s != t.nextId ==> Bound(t, t.sessions[s]);
    }
  }

  /** In a valid state the session used again is alone already: refreshing it ends nothing. */
  lemma RefreshEndsNothing(t: Tables, s: SessionId, now: nat)
    requires Inv(t) && s in t.sessions && t.sessions[s].active
    ensures Refreshed(t, s, now) == t.(sessions := t.sessions[s := t.sessions[s].(lastSeenAt := now)])
  {
    var keep := t.sessions[s];
    var chosen := OfUser(t, keep.userId) + OnDevice(t, keep.eventId, keep.deviceId) - {s};
    forall r | r in chosen ensures !t.sessions[r].active { }
    assert EndIf(t.sessions, chosen, now) == t.sessions;
  }

  lemma RefreshedKeepsInv(t: Tables, s: SessionId, now: nat)
    requires Inv(t) && s in t.sessions && t.sessions[s].active
    ensures Inv(Refreshed(t, s, now)) && EndedStays(t, Refreshed(t, s, now))
  {
    RefreshEndsNothing(t, s, now);
    var after := Refreshed(t, s, now);
    forall r | r in after.sessions && after.sessions[r].active
      ensures Bound(after, after.sessions[r])
    {
      assert Bound(t, t.sessions[r]);
    }
  }

  lemma DropKeepsInv(t: Tables, gone: set<CheckpointId>)
    requires Inv(t)
    ensures Inv(DropCheckpoints(t, gone)) && EndedStays(t, DropCheckpoints(t, gone))
  {
    var after := DropCheckpoints(t, gone);
    forall s | s in after.sessions && after.sessions[s].active
      ensures Bound(after, after.sessions[s])
    {
      assert Bound(t, t.sessions[s]);
    }
  }

  lemma StepKeepsInv(t: Tables, env: Env, r: Request)
    requires Inv(t) && Answers(t, env, r)
    ensures Inv(Next(t, env, r)) && EndedStays(t, Next(t, env, r))
  {
    if Attempt(t, env, r).Some? {
      match r
      case CreateAssignment(key, c, d, notes) =>
        ActivatedKeepsInv(t, key,
                          Assignment(Some(c), Some(d), true,
                                     if notes.None? && key in t.assignments then t.assignments[key].notes else notes),
                          env.now);
      case UpdateAssignment(key, change) => UpdateKeepsInv(t, env, key, change);
      case SetAssignmentActive(key, active) => SetActiveKeepsInv(t, env, key, active);
      case StartSession(caller, w) => StartedKeepsInv(t, env, ResolveUser(caller, w.userId).value, w);
      case StartMySession(caller, key, found) =>
        if found.Some? { RefreshedKeepsInv(t, found.value, env.now); }
        else { StartedKeepsInv(t, env, caller.userId, WantedFor(t, env, key)); }
      case EndMySession(caller) => EndingIsSafe(t, OfUser(t, caller.userId), env.now);
      case EndSession(s) => EndingIsSafe(t, {s}, env.now);
      case DeleteCheckpoints(gone) => DropKeepsInv(t, gone);
    }
  }

  /** Sessions the run deletes are gone; every other ended one is as it was. Ids are never used again. */
  lemma {:induction false} RunKeepsInv(t: Tables, steps: seq<(Env, Request)>)
    requires Inv(t) && Answered(t, steps)
    ensures Inv(Run(t, steps)) && t.nextId <= Run(t, steps).nextId
    ensures forall s :: s in t.sessions && !t.sessions[s].active && s in Run(t, steps).sessions ==>
            Run(t, steps).sessions[s] == t.sessions[s]
    ensures forall s :: s < t.nextId && s !in t.sessions ==> s !in Run(t, steps).sessions
    decreases |steps|
  {
    if steps != [] {
      var next := Next(t, steps[0].0, steps[0].1);
      StepKeepsInv(t, steps[0].0, steps[0].1);
      NoIdComesBack(t, steps[0].0, steps[0].1);
      RunKeepsInv(next, steps[1..]);
    }
  }

  lemma NoIdComesBack(t: Tables, env: Env, r: Request)
    requires Answers(t, env, r)
    ensures t.nextId <= Next(t, env, r).nextId
    ensures forall s :: s < t.nextId && s !in t.sessions ==> s !in Next(t, env, r).sessions
  {
  }

  // ----- What the operations achieve --------------------------------------

  /**
   * Taking an assignment over: it becomes the user's only active one, all
   * sessions of the user end, nobody else notices.
   */
  ghost predicate TakesOver(before: Tables, after: Tables, key: AssignmentKey, a: Assignment, now: nat) {
    && after.nextId == before.nextId && after.sessions.Keys == before.sessions.Keys
    && after.assignments.Keys == before.assignments.Keys + {key} && after.assignments[key] == a && a.active
    && (forall k :: k in before.assignments && k != key ==>
          (k.1 != key.1 ==> after.assignments[k] == before.assignments[k])
          && (k.1 == key.1 ==> after.assignments[k] == before.assignments[k].(active := false)))
    && (forall s :: s in before.sessions ==>
          after.sessions[s] ==
            if before.sessions[s].userId == key.1 && before.sessions[s].active
            then before.sessions[s].(active := false, endedAt := Some(now)) else before.sessions[s])
  }

  lemma CreateTakesOver(t: Tables, env: Env, key: AssignmentKey, c: CheckpointId, d: DeviceId, notes: Option<string>)
    requires Create(t, env, key, c, d, notes).Some?
    ensures var kept := if notes.None? && key in t.assignments then t.assignments[key].notes else notes;
            TakesOver(t, Create(t, env, key, c, d, notes).value, key, Assignment(Some(c), Some(d), true, kept), env.now)
  {
  }

  /** Activation by either route takes over with the place the assignment then has. */
  lemma ActivationTakesOver(t: Tables, env: Env, key: AssignmentKey, change: Change)
    requires key in t.assignments && change.active == Some(true)
    ensures var updated := Update(t, env, key, change);
            var merged := Merged(t.assignments[key], change);
            updated.Some? ==>
              merged.checkpointId.Some? && merged.deviceId.Some? && TakesOver(t, updated.value, key, merged, env.now)
    ensures var activated := SetActive(t, env, key, true);
            var a := t.assignments[key];
            activated.Some? ==>
              && a.checkpointId.Some? && a.deviceId.Some?
              && TakesOver(t, activated.value, key, a.(active := true), env.now)
  {
  }

  /**
   * A start that is granted opens one session for the user at the place of the
   * active assignment, in the checkpoint's own mode, and ends exactly the active
   * sessions of that user or on that device of the event.
   */
  lemma StartOpensOne(t: Tables, env: Env, caller: Caller, w: Wanted)
    requires Inv(t) && Start(t, env, caller, w).Some?
    ensures var after := Start(t, env, caller, w).value;
            var u := ResolveUser(caller, w.userId).value;
            && after.assignments == t.assignments && after.sessions.Keys == t.sessions.Keys + {t.nextId}
            && after.sessions[t.nextId].userId == u && after.sessions[t.nextId].active
            && Bound(after, after.sessions[t.nextId])
            && after.sessions[t.nextId].mode == ModeFor(env.gates[w.checkpointId].kind)
            && forall s :: s in t.sessions ==>
                 (after.sessions[s] != t.sessions[s] <==>
                    t.sessions[s].active
                      && (t.sessions[s].userId == u
                          || (t.sessions[s].eventId == w.eventId && t.sessions[s].deviceId == w.deviceId)))
  {
    assert t.nextId !in t.sessions;
    var u := ResolveUser(caller, w.userId).value;
    var cleared := Cleared(t, u, w, env.now);
    assert cleared.sessions.Keys == t.sessions.Keys;
    forall s | s in t.sessions
      ensures cleared.sessions[s] != t.sessions[s] <==>
                t.sessions[s].active
                  && (t.sessions[s].userId == u
                      || (t.sessions[s].eventId == w.eventId && t.sessions[s].deviceId == w.deviceId))
    {
      assert s in OfUser(t, u) <==> t.sessions[s].userId == u;
      assert s in OnDevice(t, w.eventId, w.deviceId) <==>
             t.sessions[s].eventId == w.eventId && t.sessions[s].deviceId == w.deviceId;
    }
  }

  // ----- Restarting the scanner page --------------------------------------

  lemma StartedIsReusable(t: Tables, env: Env, caller: Caller, key: AssignmentKey, found: Option<SessionId>)
    requires Inv(t) && Answers(t, env, StartMySession(caller, key, found))
             && StartMine(t, env, caller, key, found).Some?
    ensures var after := StartMine(t, env, caller, key, found).value;
            var s := if found.Some? then found.value else t.nextId;
            && after.assignments == t.assignments && ReadyToScan(after, env, key)
            && Reusable(after, key, ModeOf(after, env, key), s)
  {
    if found.Some? { RefreshEndsNothing(t, found.value, env.now); }
  }

  lemma SecondLookupFinds(t: Tables, env: Env, caller: Caller, key: AssignmentKey, again: Option<SessionId>,
                          s: SessionId)
    requires Inv(t) && ReadyToScan(t, env, key) && Reusable(t, key, ModeOf(t, env, key), s)
    requires Answers(t, env, StartMySession(caller, key, again))
    ensures again == Some(s)
  {
    if again.Some? { assert t.sessions[again.value].userId == t.sessions[s].userId; }
  }

  function Seen(t: Tables, s: SessionId, now: nat): Tables
    requires s in t.sessions
  {
    t.(sessions := t.sessions[s := t.sessions[s].(lastSeenAt := now)])
  }

  lemma ReuseOnlyMarksSeen(t: Tables, env: Env, caller: Caller, key: AssignmentKey, s: SessionId)
    requires Inv(t) && ReadyToScan(t, env, key) && Reusable(t, key, ModeOf(t, env, key), s)
    requires caller.role == Staff && caller.userId in env.staff
    ensures StartMine(t, env, caller, key, Some(s)) == Some(Seen(t, s, env.now))
  {
    RefreshEndsNothing(t, s, env.now);
  }

  /**
   * Starting one's session again, at any later time while the tables it reads
   * are unchanged, finds the session the first call returned: nothing is
   * ended or created, and only the time it was last seen moves.
   */
  lemma RestartKeepsSession(t: Tables, env: Env, now: nat, caller: Caller, key: AssignmentKey, found: Option<SessionId>,
                            first: Tables, again: Option<SessionId>)
    requires Inv(t) && Answers(t, env, StartMySession(caller, key, found))
             && StartMine(t, env, caller, key, found) == Some(first)
    requires Answers(first, env.(now := now), StartMySession(caller, key, again))
    ensures var s := if found.Some? then found.value else t.nextId;
            && again == Some(s) && s in first.sessions
            && StartMine(first, env.(now := now), caller, key, again) == Some(Seen(first, s, now))
  {
    var s := if found.Some? then found.value else t.nextId;
    var later := env.(now := now);
    InvAfterStartMine(t, env, caller, key, found);
    StartedIsReusable(t, env, caller, key, found);
    assert ReadyToScan(first, later, key) && ModeOf(first, later, key) == ModeOf(first, env, key);
    SecondLookupFinds(first, later, caller, key, again, s);
    ReuseOnlyMarksSeen(first, later, caller, key, s);
  }

  lemma InvAfterStartMine(t: Tables, env: Env, caller: Caller, key: AssignmentKey, found: Option<SessionId>)
    requires Inv(t) && Answers(t, env, StartMySession(caller, key, found))
             && StartMine(t, env, caller, key, found).Some?
    ensures Inv(StartMine(t, env, caller, key, found).value)
  {
    if found.Some? { RefreshedKeepsInv(t, found.value, env.now); }
    else { StartedKeepsInv(t, env, caller.userId, WantedFor(t, env, key)); }
  }

  // ----- The tables in place ----------------------------------------------

  class StaffTables {
    var assignments: map<AssignmentKey, Assignment>
    var sessions: map<SessionId, Session>
    var nextId: SessionId

    constructor ()
      ensures Inv(State())
    {
      assignments, sessions, nextId := map[], map[], 0;
    }

    function State(): Tables
      reads this
    {
      Tables(assignments, sessions, nextId)
    }

    method EndMany(chosen: set<SessionId>, now: nat)
      modifies this`sessions
      ensures State() == EndSessions(old(State()), chosen, now)
    {
      sessions := map s | s in sessions ::
        if s in chosen && sessions[s].active then sessions[s].(active := false, endedAt := Some(now)) else sessions[s];
    }

    method Activate(key: AssignmentKey, a: Assignment, now: nat)
      requires Inv(State())
      modifies this
      ensures Inv(State()) && EndedStays(old(State()), State())
      ensures State() == Activated(old(State()), key, a, now)
    {
      ActivatedKeepsInv(State(), key, a, now);
      EndMany(OfUser(State(), key.1), now);
      assignments := map k | k in assignments ::
        if k.1 == key.1 then assignments[k].(active := false) else assignments[k];
      assignments := assignments[key := a.(active := true)];
    }

    method CreateAssignment(env: Env, key: AssignmentKey, c: CheckpointId, d: DeviceId, notes: Option<string>)
      returns (ok: bool)
      requires Inv(State())
      modifies this
      ensures Inv(State()) && EndedStays(old(State()), State())
      ensures var after := Create(old(State()), env, key, c, d, notes);
              ok == after.Some? && State() == if ok then after.value else old(State())
    {
      ok := key.0 in env.openEvents && key.1 in env.staff && GateReady(env, c, key.0) && DeviceReady(env, d, key.0);
      if ok {
        var kept := notes;
        if notes.None? && key in assignments { kept := assignments[key].notes; }
        Activate(key, Assignment(Some(c), Some(d), true, kept), env.now);
      }
    }

    method UpdateAssignment(env: Env, key: AssignmentKey, change: Change) returns (ok: bool)
      requires Inv(State())
      modifies this
      ensures Inv(State()) && EndedStays(old(State()), State())
      ensures var after := Update(old(State()), env, key, change);
              ok == after.Some? && State() == if ok then after.value else old(State())
    {
      StepKeepsInv(State(), env, Request.UpdateAssignment(key, change));
      if key !in assignments || key.0 !in env.openEvents || key.1 !in env.staff { return false; }
      var a := assignments[key];
      var c, d := Or(change.checkpointId, a.checkpointId), Or(change.deviceId, a.deviceId);
      if c.None? || d.None? || !GateReady(env, c.value, key.0) || !DeviceReady(env, d.value, key.0) { return false; }
      if change.active == Some(true) {
        Activate(key, Merged(a, change), env.now);
        return true;
      }
      if change.active == Some(false) || Moves(a, change) { EndMany(OfUserAt(State(), key.0, key.1), env.now); }
      assignments := assignments[key := Merged(a, change)];
      ok := true;
    }

    method SetAssignmentActive(env: Env, key: AssignmentKey, active: bool) returns (ok: bool)
      requires Inv(State())
      modifies this
      ensures Inv(State()) && EndedStays(old(State()), State())
      ensures var after := SetActive(old(State()), env, key, active);
              ok == after.Some? && State() == if ok then after.value else old(State())
    {
      StepKeepsInv(State(), env, Request.SetAssignmentActive(key, active));
      if key !in assignments || key.0 !in env.openEvents { return false; }
      var a := assignments[key];
      if !active {
        EndMany(OfUserAt(State(), key.0, key.1), env.now);
        assignments := assignments[key := a.(active := false)];
        return true;
      }
      if key.1 !in env.staff || a.checkpointId.None? || a.deviceId.None? { return false; }
      if !GateReady(env, a.checkpointId.value, key.0) || !DeviceReady(env, a.deviceId.value, key.0) { return false; }
      Activate(key, a, env.now);
      ok := true;
    }

    /** The transaction of a new session. */
    method Begin(env: Env, u: UserId, w: Wanted)
      modifies this
      ensures State() == Started(old(State()), env, u, w)
    {
      ghost var onDevice := OnDevice(State(), w.eventId, w.deviceId);
      EndMany(OfUser(State(), u), env.now);
      assert OnDevice(State(), w.eventId, w.deviceId) == onDevice;
      EndMany(OnDevice(State(), w.eventId, w.deviceId), env.now);
      sessions := sessions[nextId :=
                           Session(w.eventId, u, w.deviceId, w.checkpointId, w.mode, true, env.now, None, env.now)];
      nextId := nextId + 1;
    }

    method StartSession(env: Env, caller: Caller, w: Wanted) returns (session: Option<SessionId>)
      requires Inv(State())
      modifies this
      ensures Inv(State()) && EndedStays(old(State()), State())
      ensures var after := Start(old(State()), env, caller, w);
              && session == (if after.Some? then Some(old(nextId)) else None)
              && State() == if after.Some? then after.value else old(State())
    {
      var u := ResolveUser(caller, w.userId);
      if u.None? || !MayStart(State(), env, u.value, w) { return None; }
      StartedKeepsInv(State(), env, u.value, w);
      session := Some(nextId);
      Begin(env, u.value, w);
    }

    /** The transaction of a session that is used again. */
    method Refresh(s: SessionId, now: nat)
      requires s in sessions
      modifies this
      ensures State() == Refreshed(old(State()), s, now)
    {
      var keep := sessions[s];
      EndMany(OfUser(State(), keep.userId) + OnDevice(State(), keep.eventId, keep.deviceId) - {s}, now);
      sessions := sessions[s := keep.(lastSeenAt := now)];
    }

    method StartMySession(env: Env, caller: Caller, key: AssignmentKey, found: Option<SessionId>)
      returns (session: Option<SessionId>)
      requires Inv(State()) && Answers(State(), env, Request.StartMySession(caller, key, found))
      modifies this
      ensures Inv(State()) && EndedStays(old(State()), State())
      ensures var after := StartMine(old(State()), env, caller, key, found);
              session == (if after.None? then None else if found.Some? then found else Some(old(nextId)))
              && State() == if after.Some? then after.value else old(State())
    {
      if caller.role != Staff || caller.userId !in env.staff || !ReadyToScan(State(), env, key) { return None; }
      if found.None? {
        session := StartSession(env, caller, WantedFor(State(), env, key));
        return;
      }
      RefreshedKeepsInv(State(), found.value, env.now);
      Refresh(found.value, env.now);
      session := found;
    }

    method EndMySession(env: Env, caller: Caller) returns (ok: bool)
      requires Inv(State())
      modifies this
      ensures Inv(State()) && EndedStays(old(State()), State())
      ensures ok == (caller.role == Staff)
      ensures State() == if ok then EndMine(old(State()), env, caller).value else old(State())
    {
      EndingIsSafe(State(), OfUser(State(), caller.userId), env.now);
      ok := caller.role == Staff;
      if ok { EndMany(OfUser(State(), caller.userId), env.now); }
    }

    method EndSession(env: Env, s: SessionId) returns (ok: bool)
      requires Inv(State())
      modifies this
      ensures Inv(State()) && EndedStays(old(State()), State())
      ensures ok == (s in old(sessions)) && State() == if ok then End(old(State()), env, s).value else old(State())
    {
      EndingIsSafe(State(), {s}, env.now);
      ok := s in sessions;
      if ok { EndMany({s}, env.now); }
    }
  }
}
