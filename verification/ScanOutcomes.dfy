/**
 * What a scan leaves in the tables, told in terms of the code, the token it
 * stands for and the rows: whose movement is made, what a refused or pending
 * code leaves, and which requests leave nothing.
 */
module ScanOutcomes {
  import opened Wrappers
  import opened Text
  import opened ScanTables
  import opened ScanInvariants
  import opened ScanRequests
  import opened ScanFastPath

  // ----- What a movement records -----------------------------------------

  /** The gate names no types, none at all, or the holder's. */
  ghost predicate GateOpenTo(env: Env, gate: Option<nat>, g: RegistrationId) {
    gate.Some? && gate.value in env.gates && env.gates[gate.value].allowedTypes.Some? ==>
      var types := env.gates[gate.value].allowedTypes.value;
      |types| == 0
      || exists i :: 0 <= i < |types| && g in env.attendees && types[i] == env.attendees[g].typeCode
  }

  /** The event admits nobody twice and has an allowed entry of this holder. */
  ghost predicate Barred(db: Db, env: Env, e: EventId, kind: MovementKind, g: RegistrationId) {
    && e in env.events && !env.events[e].allowReEntry && kind == Entry
    && exists row :: row in db.movements && db.movements[row].eventId == e && db.movements[row].registrationId == g
                     && db.movements[row].kind == Entry && db.movements[row].result == Allowed
  }

  /** The movement is this scan's, on this token and for its holder. */
  predicate Records(m: Movement, scan: Scan, t: QrToken) {
    && m.registrationId == t.registrationId && m.qrTokenId == t.rowId && m.eventId == scan.eventId
    && m.deviceId == scan.deviceId && m.sessionId == scan.sessionId && m.checkpointId == scan.checkpointId
    && m.kind == scan.kind && m.occurredAt == scan.scannedAt
  }

  /** Allowed exactly when the gate is open to the holder and no earlier entry bars it, with the reason otherwise. */
  ghost predicate DecidedBy(m: Movement, open: bool, barred: bool) {
    && (m.result == Allowed <==> open && !barred) && (m.result == Denied <==> !open || barred)
    && m.reason == if !open then "ATTENDEE_TYPE_NOT_ALLOWED" else if barred then "ALREADY_ENTERED" else "ALLOWED"
  }

  /** One movement more, everything else as before. */
  ghost predicate AddsMovement(before: Db, after: Db, op: OperationId) {
    && MovementOf(after, op).Some? && after.offline == before.offline
    && (forall row :: row in before.movements ==>
          row in after.movements && after.movements[row] == before.movements[row])
    && (forall row :: row in after.movements && row !in before.movements ==> row == after.raws[op].rowId)
    && (forall other :: other in before.raws && other != op ==>
          other in after.raws && after.raws[other] == before.raws[other])
  }

  function DecisionOn(db: Db, env: Env, scan: Scan, t: QrToken): Decision
    requires scan.eventId in env.events && t.registrationId in env.attendees
  {
    Decide(db, env, scan.eventId, t.registrationId, env.attendees[t.registrationId].typeCode, scan.checkpointId,
           scan.kind, t.rowId)
  }

  lemma DecideIs(db: Db, env: Env, scan: Scan, t: QrToken)
    requires scan.eventId in env.events && t.registrationId in env.attendees
    ensures var m := MovementFor(0, scan, DecisionOn(db, env, scan, t));
            && Records(m, scan, t)
            && DecidedBy(m, GateOpenTo(env, scan.checkpointId, t.registrationId),
                         Barred(db, env, scan.eventId, scan.kind, t.registrationId))
  {
    var code := env.attendees[t.registrationId].typeCode;
    assert Admits(env, scan.checkpointId, code) <==> GateOpenTo(env, scan.checkpointId, t.registrationId);
    assert HasEntered(db, scan.eventId, t.registrationId) <==>
           exists row :: row in db.movements && IsEntry(db.movements[row], scan.eventId, t.registrationId);
  }

  /** The row says so unless its last update failed; then it says that, and keeps holder and token. */
  ghost predicate RowTells(raw: RawScan, scan: Scan, t: QrToken, m: Movement, touched: bool) {
    && raw.scan == scan && raw.registrationId == Some(t.registrationId) && raw.qrTokenId == Some(t.rowId)
    && (touched ==> raw.status == RawProcessed && raw.result == Some(m.result) && raw.reason == m.reason)
    && (!touched ==> raw.status == RawFailed)
  }

  // ----- Direct ingestion ------------------------------------------------

  /**
   * A new scan whose code stands for a usable token makes one movement: of
   * that token and its holder, with what the scan says, allowed or denied by
   * gate and re-entry rule.
   */
  lemma DirectScanMovesHolder(db: Db, env: Env, scan: Scan, t: QrToken)
    requires Inv(db) && UniqueKeys(env) && scan.operationId !in db.raws && ChecksPass(env, scan)
    requires Denotes(env, Trim(scan.qr), scan.eventId, t) && Usable(env, t, scan.eventId)
    ensures var op, after := scan.operationId, Direct(db, env, scan);
            && AddsMovement(db, after, op)
            && var m := MovementOf(after, op).value;
               && Records(m, scan, t)
               && DecidedBy(m, GateOpenTo(env, scan.checkpointId, t.registrationId),
                            Barred(db, env, scan.eventId, scan.kind, t.registrationId))
               && RowTells(after.raws[op], scan, t, m, true)
  {
    AcceptedPlan(db, env, scan, t);
    DirectIs(db, env, scan);
    DecideIs(db, env, scan, t);
    InsertAddsMovement(db, scan, DecisionOn(db, env, scan, t));
  }

  lemma AcceptedPlan(db: Db, env: Env, scan: Scan, t: QrToken)
    requires UniqueKeys(env) && ChecksPass(env, scan)
    requires Denotes(env, Trim(scan.qr), scan.eventId, t) && Usable(env, t, scan.eventId)
    ensures PlanScan(db, env, scan) == [InsertProcessed(scan, DecisionOn(db, env, scan, t))]
  {
    AcceptedIffUsable(env, scan.qr, scan.eventId);
  }

  lemma InsertAddsMovement(db: Db, scan: Scan, d: Decision)
    requires Inv(db) && scan.operationId !in db.raws
    ensures var op, after := scan.operationId, Apply(db, InsertProcessed(scan, d));
            && AddsMovement(db, after, op)
            && MovementOf(after, op).value == MovementFor(db.nextId + 1, scan, d)
            && after.raws[op] == RawScan(db.nextId, scan, RawProcessed, Some(d.result), d.reason,
                                         Some(d.registrationId), Some(d.qrTokenId))
  {
  }

  /** Queued by fast ingestion and taken up by an undisturbed worker it makes the same one. */
  lemma QueuedScanMovesHolder(db: Db, env: Env, scan: Scan, t: QrToken)
    requires Inv(db) && UniqueKeys(env) && scan.operationId !in db.raws && ChecksPass(env, scan)
    requires Denotes(env, Trim(scan.qr), scan.eventId, t) && Usable(env, t, scan.eventId)
    ensures var op, after := scan.operationId, Worked(db, env, scan);
            && MovementOf(after, op).Some? && after.offline == db.offline
            && (forall row :: row in db.movements ==>
                  row in after.movements && after.movements[row] == db.movements[row])
            && (forall row :: row in after.movements && row !in db.movements ==> row == after.raws[op].rowId)
            && var m := MovementOf(after, op).value;
               && Records(m, scan, t)
               && DecidedBy(m, GateOpenTo(env, scan.checkpointId, t.registrationId),
                            Barred(db, env, scan.eventId, scan.kind, t.registrationId))
               && RowTells(after.raws[op], scan, t, m, op !in env.untouched)
  {
    DirectScanMovesHolder(db, env, scan, t);
    SameLogs(db, env, scan);
    WorkedRow(db, env, scan, t);
    SameMovementOf(db, env, scan);
  }

  lemma SameMovementOf(db: Db, env: Env, scan: Scan)
    requires Inv(db) && scan.operationId !in db.raws
    requires scan.operationId in Direct(db, env, scan).raws && scan.operationId in Worked(db, env, scan).raws
    ensures Worked(db, env, scan).raws[scan.operationId].rowId == Direct(db, env, scan).raws[scan.operationId].rowId
    ensures MovementOf(Worked(db, env, scan), scan.operationId) == MovementOf(Direct(db, env, scan), scan.operationId)
  {
    SameLogs(db, env, scan);
    RowIds(db, env, scan, scan.operationId);
  }

  lemma AcceptedWork(queued: Db, env: Env, scan: Scan, t: QrToken)
    requires UniqueKeys(env) && ChecksPass(env, scan)
    requires Denotes(env, Trim(scan.qr), scan.eventId, t) && Usable(env, t, scan.eventId)
    ensures PlanWork(queued, env, scan.operationId, scan) ==
            [UpdateProcessed(scan.operationId, DecisionOn(queued, env, scan, t))]
            + if scan.operationId in env.untouched then MarkFailed(scan.operationId) else []
  {
    AcceptedIffUsable(env, scan.qr, scan.eventId);
  }

  lemma UpdatedRowTells(queued: Db, env: Env, scan: Scan, t: QrToken)
    requires scan.eventId in env.events && t.registrationId in env.attendees
    requires scan.operationId in queued.raws && queued.raws[scan.operationId].scan == scan
    requires queued.raws[scan.operationId].rowId !in queued.movements
    ensures var op := scan.operationId;
            var made := Apply(queued, UpdateProcessed(op, DecisionOn(queued, env, scan, t)));
            && MovementOf(made, op).Some? && RowTells(made.raws[op], scan, t, MovementOf(made, op).value, true)
            && var failed := ApplyAll(made, MarkFailed(op));
               && MovementOf(failed, op) == MovementOf(made, op)
               && RowTells(failed.raws[op], scan, t, MovementOf(made, op).value, false)
  {
    var op := scan.operationId;
    OneWrite(Apply(queued, UpdateProcessed(op, DecisionOn(queued, env, scan, t))), MarkFailed(op));
  }

  /** The raw scan of an accepted code after the worker. */
  lemma WorkedRow(db: Db, env: Env, scan: Scan, t: QrToken)
    requires Inv(db) && UniqueKeys(env) && scan.operationId !in db.raws && ChecksPass(env, scan)
    requires Denotes(env, Trim(scan.qr), scan.eventId, t) && Usable(env, t, scan.eventId)
    ensures var op, after := scan.operationId, Worked(db, env, scan);
            && MovementOf(after, op).Some?
            && RowTells(after.raws[op], scan, t, MovementOf(after, op).value, op !in env.untouched)
  {
    QueuedIs(db, scan);
    var queued, op := Queued(db, scan), scan.operationId;
    AcceptedWork(queued, env, scan, t);
    UpdatedRowTells(queued, env, scan, t);
    var w := UpdateProcessed(op, DecisionOn(queued, env, scan, t));
    var tail := if op in env.untouched then MarkFailed(op) else [];
    ApplyAllConcat(queued, [w], tail);
    OneWrite(queued, [w]);
  }

  /** A scan that was stored as not synced, by an older version, is taken up as a new one. */
  lemma RetriedScanIsNew(db: Db, env: Env, scan: Scan)
    requires scan.operationId in db.raws && Retryable(db, scan.operationId)
    ensures var cleared := db.(raws := db.raws - {scan.operationId});
            scan.operationId !in cleared.raws && Direct(db, env, scan) == Direct(cleared, env, scan)
  {
    var op := scan.operationId;
    var cleared := Apply(db, DeleteRaw(op));
    var plan := PlanIngest(db, env, scan);
    assert plan[1..] == PlanScan(cleared, env, scan);
    assert ApplyAll(db, plan) == ApplyAll(cleared, plan[1..]);
  }

  /** Any other scan that is known already changes nothing, by either route. */
  lemma KnownScanChangesNothing(db: Db, env: Env, scan: Scan)
    requires scan.operationId in db.raws
    ensures Queued(db, scan) == db
    ensures !Retryable(db, scan.operationId) ==> Direct(db, env, scan) == db
  {
  }

  // ----- Refused codes ---------------------------------------------------

  /** No code of any format stands for a usable token, and none waits for its registration. */
  ghost predicate IsRefused(env: Env, qr: string, e: EventId) {
    && (forall t :: Denotes(env, qr, e, t) ==> !Usable(env, t, e))
    && !AwaitsReference(env, qr, e) && !AwaitsSigned(env, qr, e)
  }

  /** An offline reference nobody has synced yet. */
  ghost predicate AwaitsReference(env: Env, qr: string, e: EventId) {
    && FormatOf(env, qr) == Reference
    && forall m :: m in env.mappings && m.qrToken == qr ==>
         m.eventId == e && (m.registrationId.None? || m.status == MappingPending)
  }

  /** A signed offline code of this event whose registration has not been synced, or not for good. */
  ghost predicate AwaitsSigned(env: Env, qr: string, e: EventId) {
    && FormatOf(env, qr) == Signed && env.signed[qr].eventId == e
    && forall m :: m in env.mappings && m.qrToken == env.signed[qr].qrToken ==>
         m.registrationId.None? || m.status in {MappingPending, MappingConflicted, MappingRevoked}
  }

  lemma MappingIs(env: Env, m: Mapping)
    requires UniqueKeys(env) && m in env.mappings
    ensures FindMapping(env.mappings, m.qrToken) == Some(m)
  {
    FindMappingIs(env.mappings, m.qrToken);
  }

  /** A code waits exactly when it is one of the two kinds of offline codes that nobody has synced. */
  lemma WaitsIff(env: Env, qrRaw: string, e: EventId)
    requires UniqueKeys(env)
    ensures ValidateQr(env, qrRaw, e).PendingReference? <==> AwaitsReference(env, Trim(qrRaw), e)
    ensures ValidateQr(env, qrRaw, e).PendingSigned? <==> AwaitsSigned(env, Trim(qrRaw), e)
    ensures ValidateQr(env, qrRaw, e).PendingReference? ==> ValidateQr(env, qrRaw, e).qrToken == Trim(qrRaw)
    ensures ValidateQr(env, qrRaw, e).PendingSigned? ==> ValidateQr(env, qrRaw, e).payload == env.signed[Trim(qrRaw)]
  {
    var qr := Trim(qrRaw);
    match FormatOf(env, qr)
    case Reference =>
      FindMappingIs(env.mappings, qr);
      forall m | m in env.mappings && m.qrToken == qr ensures FindMapping(env.mappings, qr) == Some(m) {
        MappingIs(env, m);
      }
    case Signed =>
      var code := env.signed[qr].qrToken;
      FindMappingIs(env.mappings, code);
      forall m | m in env.mappings && m.qrToken == code ensures FindMapping(env.mappings, code) == Some(m) {
        MappingIs(env, m);
      }
    case _ =>
  }

  lemma RefusedIffInvalid(env: Env, qrRaw: string, e: EventId)
    requires UniqueKeys(env)
    ensures ValidateQr(env, qrRaw, e).Invalid? <==> IsRefused(env, Trim(qrRaw), e)
  {
    AcceptedIffUsable(env, qrRaw, e);
    WaitsIff(env, qrRaw, e);
  }

  /** Why a code that stands for a token is refused, in the order of the checks. */
  function Refusal(env: Env, t: QrToken, e: EventId): string {
    if t.eventId != e then "WRONG_EVENT"
    else if t.status == TokenRevoked then "QR_REVOKED"
    else if t.status == TokenExpired || !(t.validFrom <= env.now <= t.validUntil) then "QR_EXPIRED"
    else "REGISTRATION_INACTIVE"
  }

  lemma RefusalOfDenoted(env: Env, qrRaw: string, e: EventId, t: QrToken)
    requires UniqueKeys(env) && Denotes(env, Trim(qrRaw), e, t) && !Usable(env, t, e)
    ensures ValidateQr(env, qrRaw, e).Invalid?
    ensures DenialReason(ValidateQr(env, qrRaw, e).reason) == Refusal(env, t, e)
    ensures ValidateQr(env, qrRaw, e).qrTokenRow == Some(t.rowId)
    ensures ValidateQr(env, qrRaw, e).holder == Some(t.registrationId)
  {
    DenotedIsJudged(env, qrRaw, e, t);
    JudgedUnusable(env, t, e);
  }

  lemma DenotedIsJudged(env: Env, qrRaw: string, e: EventId, t: QrToken)
    requires UniqueKeys(env) && Denotes(env, Trim(qrRaw), e, t)
    ensures ValidateQr(env, qrRaw, e) == Judge(env, t, t.eventId != e)
  {
    var qr := Trim(qrRaw);
    match FormatOf(env, qr)
    case Full => FindTokenIs(env.tokens, t);
    case Compact => FindTokenIs(env.tokens, t);
    case Reference => LinkedTokenIs(env, qr, t);
    case Signed => LinkedTokenIs(env, env.signed[qr].qrToken, t);
    case Unreadable =>
  }

  lemma JudgedUnusable(env: Env, t: QrToken, e: EventId)
    requires !Usable(env, t, e)
    ensures var v := Judge(env, t, t.eventId != e);
            && v.Invalid? && DenialReason(v.reason) == Refusal(env, t, e)
            && v.qrTokenRow == Some(t.rowId) && v.holder == Some(t.registrationId)
  {
  }

  /** The raw scan of a refused code: denied, without a movement, and with the reason. */
  ghost predicate LeavesRefusal(before: Db, after: Db, scan: Scan) {
    && after.movements == before.movements && after.offline == before.offline && scan.operationId in after.raws
    && (forall other :: other in before.raws && other != scan.operationId ==>
          other in after.raws && after.raws[other] == before.raws[other])
    && var raw := after.raws[scan.operationId];
       raw.scan == scan && raw.status == RawInvalid && raw.result == Some(Denied)
  }

  /** A refused code leaves a denied raw scan and no movement; a token it stands for is named with the reason. */
  lemma RefusedScanIsDenied(db: Db, env: Env, scan: Scan)
    requires Inv(db) && UniqueKeys(env) && scan.operationId !in db.raws && ChecksPass(env, scan)
    requires IsRefused(env, Trim(scan.qr), scan.eventId)
    ensures LeavesRefusal(db, Direct(db, env, scan), scan)
    ensures forall t :: Denotes(env, Trim(scan.qr), scan.eventId, t) ==>
              var raw := Direct(db, env, scan).raws[scan.operationId];
              && raw.reason == Refusal(env, t, scan.eventId) && raw.qrTokenId == Some(t.rowId)
              && raw.registrationId == Some(t.registrationId)
    ensures FormatOf(env, Trim(scan.qr)) == Unreadable ==>
              Direct(db, env, scan).raws[scan.operationId].reason == "INVALID_QR"
  {
    RefusedIffInvalid(env, scan.qr, scan.eventId);
    DirectIs(db, env, scan);
    forall t | Denotes(env, Trim(scan.qr), scan.eventId, t)
      ensures var raw := Direct(db, env, scan).raws[scan.operationId];
              && raw.reason == Refusal(env, t, scan.eventId) && raw.qrTokenId == Some(t.rowId)
              && raw.registrationId == Some(t.registrationId)
    {
      RefusalOfDenoted(env, scan.qr, scan.eventId, t);
    }
  }

  /** The worker marks the queued scan so. */
  lemma QueuedRefusalIsDenied(db: Db, env: Env, scan: Scan)
    requires Inv(db) && UniqueKeys(env) && scan.operationId !in db.raws && ChecksPass(env, scan)
    requires IsRefused(env, Trim(scan.qr), scan.eventId) && scan.operationId !in env.untouched
    ensures LeavesRefusal(db, Worked(db, env, scan), scan)
    ensures forall t :: Denotes(env, Trim(scan.qr), scan.eventId, t) ==>
              var raw := Worked(db, env, scan).raws[scan.operationId];
              && raw.reason == Refusal(env, t, scan.eventId) && raw.qrTokenId == Some(t.rowId)
              && raw.registrationId == Some(t.registrationId)
  {
    RefusedIffInvalid(env, scan.qr, scan.eventId);
    QueuedIs(db, scan);
    var queued := Queued(db, scan);
    OneWrite(queued, PlanProcessRaw(queued, env, scan.operationId, db.nextId));
    forall t | Denotes(env, Trim(scan.qr), scan.eventId, t)
      ensures var raw := Worked(db, env, scan).raws[scan.operationId];
              && raw.reason == Refusal(env, t, scan.eventId) && raw.qrTokenId == Some(t.rowId)
              && raw.registrationId == Some(t.registrationId)
    {
      RefusalOfDenoted(env, scan.qr, scan.eventId, t);
    }
  }

  // ----- Codes that wait for their registration ----------------------------

  /** The offline scan repeats what was scanned. */
  predicate Repeats(o: OfflineScan, scan: Scan) {
    && o.eventId == scan.eventId && o.deviceId == scan.deviceId && o.sessionId == scan.sessionId
    && Some(o.checkpointId) == scan.checkpointId && o.scannedAt == scan.scannedAt && o.kind == scan.kind
    && o.localResult == scan.localResult && o.movementId.None? && o.rawRowId.None?
  }

  /** A code that waits becomes an offline scan under the same operation, unless there is one; no movement is made. */
  lemma WaitingScanIsKept(db: Db, env: Env, scan: Scan)
    requires Inv(db) && UniqueKeys(env) && scan.operationId !in db.raws && ChecksPass(env, scan)
    requires scan.checkpointId.Some?
    requires AwaitsReference(env, Trim(scan.qr), scan.eventId) || AwaitsSigned(env, Trim(scan.qr), scan.eventId)
    ensures var op, after := scan.operationId, Direct(db, env, scan);
            && after.raws == db.raws && after.movements == db.movements && op in after.offline
            && after.offline == db.offline[op := after.offline[op]]
            && if op in db.offline then after == db
               else
                 && Repeats(after.offline[op], scan)
                 && if AwaitsReference(env, Trim(scan.qr), scan.eventId)
                    then after.offline[op].qrToken == Trim(scan.qr) && after.offline[op].hash.None?
                    else
                      && after.offline[op].qrToken == env.signed[Trim(scan.qr)].qrToken
                      && after.offline[op].hash == Some(env.signed[Trim(scan.qr)].hash)
                      && after.offline[op].registrationOperationId ==
                         Some(env.signed[Trim(scan.qr)].registrationOperationId)
    ensures SameLog(Worked(db, env, scan), Direct(db, env, scan))
  {
    WaitsIff(env, scan.qr, scan.eventId);
    DirectIs(db, env, scan);
    SameLogs(db, env, scan);
  }

  // ----- Requests that change nothing --------------------------------------

  /** Something around the scan is not in order: the event, the device, the session or the gate. */
  ghost predicate NotInOrder(env: Env, scan: Scan) {
    || scan.eventId !in env.events || env.events[scan.eventId].archived
    || scan.deviceId !in env.devices || env.devices[scan.deviceId].eventId != scan.eventId
    || !env.devices[scan.deviceId].active
    || (scan.sessionId.Some? && (scan.sessionId.value !in env.sessions || !env.sessions[scan.sessionId.value].active
                                 || env.sessions[scan.sessionId.value].eventId != scan.eventId))
    || (scan.checkpointId.Some? && (scan.checkpointId.value !in env.gates || !env.gates[scan.checkpointId.value].active
                                    || env.gates[scan.checkpointId.value].eventId != scan.eventId))
  }

  lemma NotInOrderIff(env: Env, scan: Scan)
    ensures NotInOrder(env, scan) <==> !ChecksPass(env, scan)
  {
  }

  /** Then direct ingestion leaves no trace of a new scan, and the worker a queued one without a movement. */
  lemma DisorderlyScanLeavesNothing(db: Db, env: Env, scan: Scan)
    requires scan.operationId !in db.raws && NotInOrder(env, scan)
    ensures Direct(db, env, scan) == db
    ensures var op, after := scan.operationId, Worked(db, env, scan);
            && SameLog(after, db) && op in after.raws
            && after.raws[op].status == RawFailed && after.raws[op].result == Some(Denied)
  {
    NotInOrderIff(env, scan);
    DirectIs(db, env, scan);
    QueuedIs(db, scan);
    OneWrite(Queued(db, scan), PlanProcessRaw(Queued(db, scan), env, scan.operationId, db.nextId));
  }

  // ----- Replays ---------------------------------------------------------

  /** What the movement of a replay records: the raw scan when there is one, else the offline scan itself. */
  ghost predicate ReplayRecords(db: Db, op: OperationId, m: Movement, t: QrToken)
    requires op in db.offline
  {
    && m.registrationId == t.registrationId && m.qrTokenId == t.rowId
    && if op in db.raws then Records(m, db.raws[op].scan, t)
       else
         var o := db.offline[op];
         && m.eventId == o.eventId && m.deviceId == o.deviceId && m.sessionId == o.sessionId
         && m.checkpointId == Some(o.checkpointId) && m.kind == o.kind && m.occurredAt == o.scannedAt
  }

  /** The row is PROCESSED, names the movement, its raw scan and its holder, and is otherwise as it was. */
  predicate Finished(before: OfflineScan, after: OfflineScan, rowId: nat, m: Movement) {
    after == before.(status := Processed, registrationId := Some(m.registrationId), movementId := Some(m.id),
                     rawRowId := Some(rowId))
  }

  /**
   * A replay that gets past its look-ups and checks makes one movement: of an
   * ACTIVE token of a mapping that carries the scanned code or its
   * registration's operation, allowed or denied by what the offline scan asks.
   */
  lemma ReplayMovesLinkedHolder(db: Db, env: Env, op: OperationId)
    requires Inv(db) && MakesMovement(db, env, op)
    ensures var o, after := db.offline[op], ApplyAll(db, PlanProcess(db, env, op).0);
            && MovementOf(after, op).Some? && op in after.raws && op in after.offline
            && var m := MovementOf(after, op).value;
               && Finished(o, after.offline[op], after.raws[op].rowId, m)
               && exists link, t :: LinksScan(env, o, link) && CanonicalFor(env, link, t) && ReplayRecords(db, op, m, t)
                    && DecidedBy(m, GateOpenTo(env, Some(o.checkpointId), t.registrationId),
                                 Barred(db, env, o.eventId, o.kind, t.registrationId))
  {
    var o := db.offline[op];
    var writes, t := PlanProcess(db, env, op).0, ContextOf(env, o).token;
    ContextIs(env, o);
    MovementIsMade(db, env, op);
    TwoWrites(db, writes[0], writes[1]);
    assert writes == [writes[0], writes[1]];
    MadeRecords(db, env, op);
    FinishedIs(Apply(db, writes[0]), writes[1], op);
    var link :| LinksScan(env, o, link) && CanonicalFor(env, link, t);
  }

  lemma MadeRecords(db: Db, env: Env, op: OperationId)
    requires Inv(db) && MakesMovement(db, env, op)
    requires ContextOf(env, db.offline[op]).token.registrationId in env.attendees
    requires var c := ContextOf(env, db.offline[op]); c.typeCode == env.attendees[c.token.registrationId].typeCode
    ensures var o, t := db.offline[op], ContextOf(env, db.offline[op]).token;
            var made := Apply(db, PlanProcess(db, env, op).0[0]);
            && MovementOf(made, op).Some? && ReplayRecords(db, op, MovementOf(made, op).value, t)
            && DecidedBy(MovementOf(made, op).value, GateOpenTo(env, Some(o.checkpointId), t.registrationId),
                         Barred(db, env, o.eventId, o.kind, t.registrationId))
  {
    var o, t := db.offline[op], ContextOf(env, db.offline[op]).token;
    DecideIs(db, env, ScanOf(op, o), t);
    assert ReplayDecision(db, env, o) == DecisionOn(db, env, ScanOf(op, o), t);
  }

  lemma FinishedIs(made: Db, w: Write, op: OperationId)
    requires op in made.offline && MovementOf(made, op).Some?
    requires var m := MovementOf(made, op).value;
             w == FinishOffline(op, Some(m.registrationId), made.raws[op].rowId, m.id)
    ensures var after := Apply(made, w);
            && MovementOf(after, op) == MovementOf(made, op) && op in after.raws && op in after.offline
            && Finished(made.offline[op], after.offline[op], after.raws[op].rowId, MovementOf(made, op).value)
  {
  }

  /** Something around the offline scan is not in order; its session may have ended, but not be of another place. */
  ghost predicate ReplayNotInOrder(env: Env, o: OfflineScan) {
    || o.eventId !in env.events || env.events[o.eventId].archived
    || o.deviceId !in env.devices || env.devices[o.deviceId].eventId != o.eventId || !env.devices[o.deviceId].active
    || o.checkpointId !in env.gates || !env.gates[o.checkpointId].active
    || env.gates[o.checkpointId].eventId != o.eventId
    || (o.sessionId.Some? && o.sessionId.value in env.sessions
        && (env.sessions[o.sessionId.value].eventId != o.eventId
            || env.sessions[o.sessionId.value].deviceId != o.deviceId
            || env.sessions[o.sessionId.value].checkpointId != o.checkpointId))
  }

  /** Without a link, a token or order a replay without a movement writes nothing; it throws for all but the first. */
  lemma BarrenReplayWritesNothing(db: Db, env: Env, op: OperationId)
    requires op in db.offline && MovementOf(db, op).None?
    requires !(db.offline[op].status == Processed && db.offline[op].movementId.Some?)
    ensures var o, (writes, throws) := db.offline[op], PlanProcess(db, env, op);
            && ((forall m :: !LinksScan(env, o, m)) ==> writes == [] && !throws)
            && ((exists m :: LinksScan(env, o, m)) && ReplayNotInOrder(env, o) ==> writes == [] && throws)
            && ((forall m, t :: LinksScan(env, o, m) ==> !CanonicalFor(env, m, t)) ==>
                writes == [] && (throws <==> exists m :: LinksScan(env, o, m)))
  {
    ContextIs(env, db.offline[op]);
  }

  // ----- A turn of a reconciliation ----------------------------------------

  /**
   * How a reconciliation leaves a waiting operation: PROCESSED when its
   * movement was there or is made and nothing throws, still LINKED when no
   * mapping links it, FAILED otherwise; linked to the registration it reconciles
   * unless the movement says whose it is.
   */
  lemma TurnLeaves(db: Db, env: Env, op: OperationId, g: RegistrationId)
    requires Inv(db) && op in db.offline && db.offline[op].status !in {Processed, Conflicted}
    ensures var linked, after := Apply(db, LinkOffline(op, g, None)), ApplyAll(db, PlanTurn(db, env, op, g));
            && linked.offline == db.offline[op := db.offline[op].(status := Linked, registrationId := Some(g))]
            && op in after.offline
            && after.offline[op].status ==
               (if MovementOf(db, op).Some? then Processed
                else if MakesMovement(linked, env, op) then if op in env.untouched then Failed else Processed
                else if forall m :: !LinksScan(env, db.offline[op], m) then Linked
                else Failed)
            && (MovementOf(db, op).None? && !MakesMovement(linked, env, op) ==>
                after.offline[op].registrationId == Some(g) && after.movements == db.movements)
  {
    var linked := Apply(db, LinkOffline(op, g, None));
    LinkingKeepsMovement(db, op, g);
    if MovementOf(db, op).Some? {
      NamingThrowsNothing(linked, env, op);
      QuietTurnEnds(db, env, op, g);
      FoundMovementIsNamed(linked, env, op);
    } else if MakesMovement(linked, env, op) {
      MakingTurnLeaves(db, env, op, g);
    } else {
      IdleTurnLeaves(db, env, op, g);
    }
  }

  lemma MakingTurnLeaves(db: Db, env: Env, op: OperationId, g: RegistrationId)
    requires op in db.offline && MakesMovement(Apply(db, LinkOffline(op, g, None)), env, op)
    ensures var after := ApplyAll(db, PlanTurn(db, env, op, g));
            op in after.offline && after.offline[op].status == if op in env.untouched then Failed else Processed
  {
    var linked := Apply(db, LinkOffline(op, g, None));
    TurnInSteps(db, env, op, g);
    ReplayProcesses(linked, env, op);
    MakingThrowsIffUntouched(linked, env, op);
  }

  lemma IdleTurnLeaves(db: Db, env: Env, op: OperationId, g: RegistrationId)
    requires op in db.offline && MovementOf(db, op).None?
    requires !MakesMovement(Apply(db, LinkOffline(op, g, None)), env, op)
    ensures var after := ApplyAll(db, PlanTurn(db, env, op, g));
            && op in after.offline && after.movements == db.movements && after.offline[op].registrationId == Some(g)
            && after.offline[op].status == if forall m :: !LinksScan(env, db.offline[op], m) then Linked else Failed
  {
    var linked := Apply(db, LinkOffline(op, g, None));
    TurnInSteps(db, env, op, g);
    LinkingKeepsMovement(db, op, g);
    IdleReplay(linked, env, op);
    assert forall m :: LinksScan(env, linked.offline[op], m) <==> LinksScan(env, db.offline[op], m);
  }

  lemma MakingThrowsIffUntouched(db: Db, env: Env, op: OperationId)
    requires MakesMovement(db, env, op)
    ensures PlanProcess(db, env, op).1 <==> op in env.untouched
  {
  }

  lemma IdleReplay(db: Db, env: Env, op: OperationId)
    requires op in db.offline && db.offline[op].status != Processed && MovementOf(db, op).None?
    requires !MakesMovement(db, env, op)
    ensures PlanProcess(db, env, op).0 == []
    ensures PlanProcess(db, env, op).1 <==> exists m :: LinksScan(env, db.offline[op], m)
  {
    ContextIs(env, db.offline[op]);
  }

  // ----- Uploads ---------------------------------------------------------

  /** The registration a mapping of the uploaded code leads to. */
  ghost predicate CodeLinkedTo(env: Env, code: string, g: RegistrationId) {
    exists m :: m in env.mappings && m.qrToken == code && m.registrationId == Some(g)
  }

  lemma LinkedToIs(env: Env, code: string)
    requires UniqueKeys(env)
    ensures forall g: RegistrationId :: LinkedTo(env, code) == Some(g) <==> CodeLinkedTo(env, code, g)
  {
    FindMappingIs(env.mappings, code);
    forall m | m in env.mappings && m.qrToken == code ensures FindMapping(env.mappings, code) == Some(m) {
      MappingIs(env, m);
    }
  }

  /** The row a new upload stores: what the device sent, under the code and hash that were signed. */
  ghost predicate Stores(env: Env, u: Upload, o: OfflineScan)
    requires u.signedQr in env.signed
  {
    var payload := env.signed[u.signedQr];
    && o.eventId == u.eventId && o.deviceId == u.deviceId && o.sessionId == u.sessionId
    && o.checkpointId == u.checkpointId && o.kind == u.kind && o.scannedAt == u.scannedAt
    && o.localResult == u.localResult && o.qrToken == payload.qrToken && o.hash == Some(payload.hash)
    && o.movementId.None? && o.rawRowId.None?
    && o.registrationOperationId == (if u.registrationOperationId.Some? then u.registrationOperationId
                                     else Some(payload.registrationOperationId))
    && match o.registrationId
       case Some(g) => o.status == Linked && CodeLinkedTo(env, payload.qrToken, g)
       case None => o.status == PendingLink && forall g: RegistrationId :: !CodeLinkedTo(env, payload.qrToken, g)
  }

  /** A new upload is stored, and replayed at once exactly when its code is linked. */
  lemma NewUploadIsStored(db: Db, env: Env, u: Upload)
    requires UniqueKeys(env) && UploadAccepted(env, u) && u.operationId !in db.offline
    ensures var op, plan := u.operationId, PlanOffline(db, env, u);
            && plan != [] && op in Apply(db, plan[0]).offline
            && var stored := Apply(db, plan[0]);
               && stored == db.(offline := db.offline[op := stored.offline[op]])
               && Stores(env, u, stored.offline[op])
               && plan[1..] == if stored.offline[op].registrationId.Some? then PlanProcess(stored, env, op).0 else []
  {
    LinkedToIs(env, env.signed[u.signedQr].qrToken);
  }

  predicate StillWaits(o: OfflineScan) { o.status == PendingLink || o.status == Linked || o.status == Failed }

  predicate OtherPayload(env: Env, u: Upload, o: OfflineScan)
    requires u.signedQr in env.signed
  {
    o.hash.Some? && o.hash.value != env.signed[u.signedQr].hash
  }

  /** An upload of a known operation under another hash only marks it. */
  lemma OtherPayloadMarks(db: Db, env: Env, u: Upload)
    requires UploadAccepted(env, u) && u.operationId in db.offline && OtherPayload(env, u, db.offline[u.operationId])
    ensures var op := u.operationId;
            ApplyAll(db, PlanOffline(db, env, u)) ==
            db.(offline := db.offline[op := db.offline[op].(status := Conflicted)])
  {
    OneWrite(db, PlanOffline(db, env, u));
  }

  /** A waiting operation whose code is linked by now is linked and replayed. */
  lemma WaitingUploadIsLinked(db: Db, env: Env, u: Upload, g: RegistrationId)
    requires UniqueKeys(env) && UploadAccepted(env, u) && u.operationId in db.offline
    requires !OtherPayload(env, u, db.offline[u.operationId]) && StillWaits(db.offline[u.operationId])
    requires CodeLinkedTo(env, env.signed[u.signedQr].qrToken, g)
    ensures var op, plan, o := u.operationId, PlanOffline(db, env, u), db.offline[u.operationId];
            && plan != []
            && var linked := Apply(db, plan[0]);
               && linked == db.(offline := db.offline[op := o.(status := Linked, registrationId := Some(g),
                                sessionId := if u.sessionId.Some? then u.sessionId else o.sessionId)])
               && plan[1..] == PlanProcess(linked, env, op).0
  {
    LinkedToIs(env, env.signed[u.signedQr].qrToken);
  }

  /** One that does not wait, or whose code nothing links, stays as it is. */
  lemma OtherUploadChangesNothing(db: Db, env: Env, u: Upload)
    requires UniqueKeys(env) && UploadAccepted(env, u) && u.operationId in db.offline
    requires !OtherPayload(env, u, db.offline[u.operationId])
    requires StillWaits(db.offline[u.operationId]) ==>
               forall g: RegistrationId :: !CodeLinkedTo(env, env.signed[u.signedQr].qrToken, g)
    ensures ApplyAll(db, PlanOffline(db, env, u)) == db
  {
    var code, status := env.signed[u.signedQr].qrToken, db.offline[u.operationId].status;
    LinkedToIs(env, code);
    assert LinkedTo(env, code).Some? ==> CodeLinkedTo(env, code, LinkedTo(env, code).value);
    assert status == Processed || status == Conflicted || StillWaits(db.offline[u.operationId]);
  }

  /** A code that was not signed for this event, or not this code, or a scan out of order: nothing is stored. */
  lemma BadUploadChangesNothing(db: Db, env: Env, u: Upload)
    requires
      || u.signedQr !in env.signed || env.signed[u.signedQr].eventId != u.eventId
      || (u.qrToken.Some? && u.qrToken.value != env.signed[u.signedQr].qrToken)
      || NotInOrder(env, Scan(u.operationId, u.eventId, u.deviceId, u.sessionId, Some(u.checkpointId), u.signedQr,
                              u.kind, u.scannedAt, u.localResult))
    ensures ApplyAll(db, PlanOffline(db, env, u)) == db
  {
  }
}
