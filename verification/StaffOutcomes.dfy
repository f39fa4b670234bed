/**
 * What each request on assignments and sessions leaves, row by row: which
 * requests are granted, what is written, and which sessions end.
 */
module StaffOutcomes {
  import opened Wrappers
  import opened StaffBinding

  // ----- What ends -------------------------------------------------------

  /** An ended session keeps everything but its activity; an ended one is not ended again. */
  predicate EndsOrStays(before: Session, after: Session, ends: bool, now: nat) {
    if ends && before.active then
      && !after.active && after.endedAt == Some(now)
      && after.eventId == before.eventId && after.userId == before.userId && after.deviceId == before.deviceId
      && after.checkpointId == before.checkpointId && after.mode == before.mode
      && after.startedAt == before.startedAt && after.lastSeenAt == before.lastSeenAt
    else after == before
  }

  /** The chosen sessions end now and every other one stays; none appears and none is lost. */
  ghost predicate EndsExactly(before: Tables, after: Tables, now: nat, chosen: set<SessionId>) {
    && after.sessions.Keys == before.sessions.Keys
    && forall s :: s in before.sessions ==>
         EndsOrStays(before.sessions[s], after.sessions[s], s in chosen, now)
  }

  predicate OpenDevice(env: Env, e: EventId, d: Option<DeviceId>) {
    d.Some? && d.value in env.devices && env.devices[d.value].eventId == e && env.devices[d.value].active
  }

  predicate OpenGate(env: Env, e: EventId, c: Option<CheckpointId>) {
    c.Some? && c.value in env.gates && env.gates[c.value].eventId == e && env.gates[c.value].active
  }

  // ----- Assignments -----------------------------------------------------

  /**
   * Deactivating is granted for any assignment of an open event. It writes
   * nothing but the flag, and ends the user's sessions of that event.
   */
  lemma DeactivationEnds(t: Tables, env: Env, key: AssignmentKey)
    ensures SetActive(t, env, key, false).Some? <==> key in t.assignments && key.0 in env.openEvents
    ensures SetActive(t, env, key, false).Some? ==>
              var after := SetActive(t, env, key, false).value;
              var a := t.assignments[key];
              && after.nextId == t.nextId
              && after.assignments == t.assignments[key := Assignment(a.checkpointId, a.deviceId, false, a.notes)]
              && EndsExactly(t, after, env.now, set s | s in t.sessions && t.sessions[s].userId == key.1
                                                        && t.sessions[s].eventId == key.0)
  {
  }

  /** In a valid state nobody then works at that event any more; nor at all, when the assignment was active. */
  lemma NobodyWorksAfterDeactivation(t: Tables, env: Env, key: AssignmentKey, s: SessionId)
    requires Inv(t) && SetActive(t, env, key, false).Some?
    ensures var after := SetActive(t, env, key, false).value;
            s in after.sessions && after.sessions[s].active && after.sessions[s].userId == key.1 ==>
              after.sessions[s].eventId != key.0 && !t.assignments[key].active
  {
    DeactivationEnds(t, env, key);
    if s in t.sessions && t.sessions[s].active && t.sessions[s].userId == key.1 {
      assert Bound(t, t.sessions[s]);
    }
  }

  /** Activating needs staff and an open place at the event; the assignment then takes over unchanged. */
  lemma ActivationIffOpen(t: Tables, env: Env, key: AssignmentKey)
    ensures SetActive(t, env, key, true).Some? <==>
              && key in t.assignments && key.0 in env.openEvents && key.1 in env.staff
              && OpenGate(env, key.0, t.assignments[key].checkpointId)
              && OpenDevice(env, key.0, t.assignments[key].deviceId)
    ensures SetActive(t, env, key, true).Some? ==>
              var a := t.assignments[key];
              TakesOver(t, SetActive(t, env, key, true).value, key,
                        Assignment(a.checkpointId, a.deviceId, true, a.notes), env.now)
  {
  }

  /** Creating one needs the same; an assignment already there is replaced and keeps its notes when none are given. */
  lemma CreationIffOpen(t: Tables, env: Env, key: AssignmentKey, c: CheckpointId, d: DeviceId, notes: Option<string>)
    ensures Create(t, env, key, c, d, notes).Some? <==>
              key.0 in env.openEvents && key.1 in env.staff && OpenGate(env, key.0, Some(c))
              && OpenDevice(env, key.0, Some(d))
    ensures Create(t, env, key, c, d, notes).Some? ==>
              exists kept: Option<string> ::
                && (notes.Some? ==> kept == notes)
                && (notes.None? ==> kept == if key in t.assignments then t.assignments[key].notes else None)
                && TakesOver(t, Create(t, env, key, c, d, notes).value, key,
                             Assignment(Some(c), Some(d), true, kept), env.now)
  {
    if Create(t, env, key, c, d, notes).Some? {
      var kept := if notes.None? && key in t.assignments then t.assignments[key].notes else notes;
      CreateTakesOver(t, env, key, c, d, notes);
      assert TakesOver(t, Create(t, env, key, c, d, notes).value, key,
                       Assignment(Some(c), Some(d), true, kept), env.now);
    }
  }

  /** The assignment with what the request names; what it leaves out stays. */
  predicate IsChanged(a: Assignment, change: Change, b: Assignment) {
    && (b.checkpointId == if change.checkpointId.Some? then change.checkpointId else a.checkpointId)
    && (b.deviceId == if change.deviceId.Some? then change.deviceId else a.deviceId)
    && (b.active == if change.active.Some? then change.active.value else a.active)
    && (b.notes == if change.notes.Some? then change.notes else a.notes)
  }

  /**
   * An update is granted when the place it leaves the assignment at is open.
   * A request to activate takes over. Any other leaves the user's other
   * assignments, and ends the user's sessions of that event exactly when it
   * deactivates or when the place is no longer the same.
   */
  lemma UpdateLeaves(t: Tables, env: Env, key: AssignmentKey, change: Change, b: Assignment)
    requires key in t.assignments && IsChanged(t.assignments[key], change, b)
    ensures Update(t, env, key, change).Some? <==>
              && key.0 in env.openEvents && key.1 in env.staff
              && OpenGate(env, key.0, b.checkpointId) && OpenDevice(env, key.0, b.deviceId)
    ensures Update(t, env, key, change).Some? ==>
              var a, after := t.assignments[key], Update(t, env, key, change).value;
              if change.active == Some(true) then TakesOver(t, after, key, b, env.now)
              else
                && after.nextId == t.nextId && after.assignments == t.assignments[key := b]
                && EndsExactly(t, after, env.now,
                               set s | s in t.sessions && t.sessions[s].userId == key.1
                                       && t.sessions[s].eventId == key.0
                                       && (change.active == Some(false) || a.checkpointId != b.checkpointId
                                           || a.deviceId != b.deviceId))
  {
    assert b == Merged(t.assignments[key], change);
  }

  lemma UpdateNeedsAssignment(t: Tables, env: Env, key: AssignmentKey, change: Change)
    ensures Update(t, env, key, change).Some? ==> key in t.assignments
  {
  }

  // ----- Sessions --------------------------------------------------------

  /** Staff start for themselves, and may name themselves; a super admin must name somebody. */
  predicate StartsFor(caller: Caller, w: Wanted, u: UserId) {
    || (caller.role == Staff && u == caller.userId && (w.userId.None? || w.userId.value == caller.userId))
    || (caller.role == SuperAdmin && w.userId.Some? && w.userId.value == u)
  }

  predicate IsModeOf(kind: CheckpointType, mode: Mode) {
    && (kind == EntryGate <==> mode == Entry)
    && (kind == ExitGate <==> mode == Exit)
    && (kind == Booth <==> mode == BoothVisit)
    && (kind == SessionRoom <==> mode == SessionAttendance)
    && (kind == VipArea <==> mode == VipAccess)
    && (kind in {InternalPoint, WorkshopArea, CheckpointType.Other} <==> mode == Mode.Checkpoint)
  }

  /** What a start demands of the event, the user, the place and the assignment. */
  predicate PlaceIsOpen(t: Tables, env: Env, w: Wanted, u: UserId) {
    && w.eventId in env.openEvents && u in env.staff
    && OpenDevice(env, w.eventId, Some(w.deviceId)) && OpenGate(env, w.eventId, Some(w.checkpointId))
    && IsModeOf(env.gates[w.checkpointId].kind, w.mode)
    && (w.eventId, u) in t.assignments && t.assignments[(w.eventId, u)].active
    && t.assignments[(w.eventId, u)].deviceId == Some(w.deviceId)
    && t.assignments[(w.eventId, u)].checkpointId == Some(w.checkpointId)
  }

  /**
   * The sessions after a start: all of the user and all on the device of the
   * event end, and the one opened is at the wanted place, running from now.
   */
  ghost predicate Opens(before: Tables, after: Tables, w: Wanted, u: UserId, now: nat) {
    && after.assignments == before.assignments && after.nextId == before.nextId + 1
    && before.nextId in after.sessions
    && after.sessions[before.nextId] ==
       Session(w.eventId, u, w.deviceId, w.checkpointId, w.mode, true, now, None, now)
    && EndsExactly(before, after.(sessions := after.sessions - {before.nextId}), now,
                   set s | s in before.sessions
                           && (before.sessions[s].userId == u
                               || (before.sessions[s].eventId == w.eventId
                                   && before.sessions[s].deviceId == w.deviceId)))
  }

  lemma StartedOpens(t: Tables, env: Env, w: Wanted, u: UserId)
    requires Inv(t)
    ensures Opens(t, Started(t, env, u, w), w, u, env.now)
  {
    var after := Started(t, env, u, w);
    assert t.nextId !in t.sessions;
    assert (after.sessions - {t.nextId}).Keys == t.sessions.Keys;
  }

  lemma StartIffOpen(t: Tables, env: Env, caller: Caller, w: Wanted)
    requires Inv(t)
    ensures Start(t, env, caller, w).Some? <==>
              exists u: UserId :: StartsFor(caller, w, u) && PlaceIsOpen(t, env, w, u)
    ensures forall u: UserId :: Start(t, env, caller, w).Some? && StartsFor(caller, w, u) ==>
              Opens(t, Start(t, env, caller, w).value, w, u, env.now)
  {
    forall u: UserId | StartsFor(caller, w, u) ensures ResolveUser(caller, w.userId) == Some(u) { }
    var u := ResolveUser(caller, w.userId);
    if u.Some? {
      assert StartsFor(caller, w, u.value);
      assert MayStart(t, env, u.value, w) <==> PlaceIsOpen(t, env, w, u.value);
      StartedOpens(t, env, w, u.value);
    }
  }

  /** The place of an assignment that can be worked at: active, with an active gate and an active device. */
  predicate Workable(t: Tables, env: Env, key: AssignmentKey) {
    && key in t.assignments && t.assignments[key].active
    && t.assignments[key].checkpointId.Some? && t.assignments[key].deviceId.Some?
    && t.assignments[key].checkpointId.value in env.gates && env.gates[t.assignments[key].checkpointId.value].active
    && t.assignments[key].deviceId.value in env.devices && env.devices[t.assignments[key].deviceId.value].active
  }

  /** A running session of the assignment, in the mode of its gate. */
  predicate Running(t: Tables, env: Env, key: AssignmentKey, s: SessionId)
    requires Workable(t, env, key)
  {
    && s in t.sessions && t.sessions[s].active
    && t.sessions[s].eventId == key.0 && t.sessions[s].userId == key.1
    && t.assignments[key].deviceId == Some(t.sessions[s].deviceId)
    && t.assignments[key].checkpointId == Some(t.sessions[s].checkpointId)
    && IsModeOf(env.gates[t.sessions[s].checkpointId].kind, t.sessions[s].mode)
  }

  lemma RunningIsReusable(t: Tables, env: Env, key: AssignmentKey, s: SessionId)
    requires Inv(t) && Workable(t, env, key)
    ensures Running(t, env, key, s) <==> Reusable(t, key, ModeOf(t, env, key), s)
  {
  }

  /**
   * Starting one's own session: staff with a workable assignment keep the
   * running session, of which only the time it was last seen moves, and get a
   * new one when none is running and the place is open at that event.
   */
  lemma StartMineLeaves(t: Tables, env: Env, caller: Caller, key: AssignmentKey, found: Option<SessionId>)
    requires Inv(t) && Answers(t, env, StartMySession(caller, key, found))
    ensures StartMine(t, env, caller, key, found).Some? ==>
              caller.role == Staff && caller.userId in env.staff && Workable(t, env, key)
    ensures caller.role == Staff && caller.userId in env.staff && Workable(t, env, key) ==>
              var after, a := StartMine(t, env, caller, key, found), t.assignments[key];
              && (forall s :: Running(t, env, key, s) ==>
                    && after.Some? && after.value.assignments == t.assignments && after.value.nextId == t.nextId
                    && after.value.sessions == t.sessions[s := t.sessions[s].(lastSeenAt := env.now)])
              && ((forall s :: !Running(t, env, key, s)) ==>
                    && (after.Some? <==>
                          key.0 in env.openEvents && OpenDevice(env, key.0, a.deviceId)
                          && OpenGate(env, key.0, a.checkpointId))
                    && (after.Some? ==> exists mode ::
                          && IsModeOf(env.gates[a.checkpointId.value].kind, mode)
                          && Opens(t, after.value,
                                   Wanted(key.0, None, a.deviceId.value, a.checkpointId.value, mode),
                                   caller.userId, env.now)))
  {
    if caller.role == Staff && caller.userId in env.staff && Workable(t, env, key) {
      forall s ensures Running(t, env, key, s) <==> Reusable(t, key, ModeOf(t, env, key), s) {
        RunningIsReusable(t, env, key, s);
      }
      if found.Some? {
        KeepsRunning(t, env, caller, key, found.value);
      } else {
        OpensOwn(t, env, caller, key);
      }
    }
  }

  lemma KeepsRunning(t: Tables, env: Env, caller: Caller, key: AssignmentKey, found: SessionId)
    requires Inv(t) && caller.role == Staff && caller.userId in env.staff && Workable(t, env, key)
    requires Running(t, env, key, found)
    ensures forall s :: Running(t, env, key, s) ==> s == found
    ensures StartMine(t, env, caller, key, Some(found)) == Some(Seen(t, found, env.now))
  {
    RefreshEndsNothing(t, found, env.now);
    forall s | Running(t, env, key, s) ensures s == found {
      assert t.sessions[s].userId == t.sessions[found].userId;
    }
  }

  lemma OpensOwn(t: Tables, env: Env, caller: Caller, key: AssignmentKey)
    requires Inv(t) && caller.role == Staff && caller.userId in env.staff && Workable(t, env, key)
    requires key.1 == caller.userId
    ensures var after, a := StartMine(t, env, caller, key, None), t.assignments[key];
            && (after.Some? <==>
                  key.0 in env.openEvents && OpenDevice(env, key.0, a.deviceId) && OpenGate(env, key.0, a.checkpointId))
            && (after.Some? ==> exists mode ::
                  && IsModeOf(env.gates[a.checkpointId.value].kind, mode)
                  && Opens(t, after.value, Wanted(key.0, None, a.deviceId.value, a.checkpointId.value, mode),
                           caller.userId, env.now))
  {
    var after, a, w := StartMine(t, env, caller, key, None), t.assignments[key], WantedFor(t, env, key);
    StartIffOpen(t, env, caller, w);
    assert StartsFor(caller, w, caller.userId);
    assert PlaceIsOpen(t, env, w, caller.userId) <==>
           key.0 in env.openEvents && OpenDevice(env, key.0, a.deviceId) && OpenGate(env, key.0, a.checkpointId);
    if after.Some? {
      assert Opens(t, after.value, w, caller.userId, env.now);
      assert IsModeOf(env.gates[a.checkpointId.value].kind, w.mode);
      assert Opens(t, after.value, w.(userId := None), caller.userId, env.now);
    }
  }

  /** Staff end all their own sessions; nobody else may call this. */
  lemma EndMineEnds(t: Tables, env: Env, caller: Caller)
    ensures EndMine(t, env, caller).Some? <==> caller.role == Staff
    ensures EndMine(t, env, caller).Some? ==>
              var after := EndMine(t, env, caller).value;
              && after.assignments == t.assignments && after.nextId == t.nextId
              && EndsExactly(t, after, env.now, set s | s in t.sessions && t.sessions[s].userId == caller.userId)
  {
  }

  /** Ending one session ends that one and no other. */
  lemma EndEndsOne(t: Tables, env: Env, s: SessionId)
    ensures End(t, env, s).Some? <==> s in t.sessions
    ensures End(t, env, s).Some? ==>
              var after := End(t, env, s).value;
              after.assignments == t.assignments && after.nextId == t.nextId && EndsExactly(t, after, env.now, {s})
  {
  }

  /** Deleting checkpoints takes the rows at them and leaves every other row as it was. */
  lemma DropTakesThoseThere(t: Tables, gone: set<CheckpointId>)
    ensures var after := DropCheckpoints(t, gone);
            && after.nextId == t.nextId
            && (forall s :: s in after.sessions <==> s in t.sessions && t.sessions[s].checkpointId !in gone)
            && (forall s :: s in after.sessions ==> after.sessions[s] == t.sessions[s])
            && (forall k :: k in after.assignments <==>
                  k in t.assignments && forall c :: c in gone ==> t.assignments[k].checkpointId != Some(c))
            && (forall k :: k in after.assignments ==> after.assignments[k] == t.assignments[k])
  {
  }
}
