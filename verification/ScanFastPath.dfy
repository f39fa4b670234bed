/** Fast ingestion followed by its worker does to the log what direct ingestion does. */
module ScanFastPath {
  import opened Wrappers
  import opened ScanTables
  import opened ScanInvariants
  import opened ScanRequests

  function Direct(db: Db, env: Env, scan: Scan): Db { ApplyAll(db, PlanIngest(db, env, scan)) }

  function Queued(db: Db, scan: Scan): Db { ApplyAll(db, PlanIngestFast(db, scan)) }

  function Worked(db: Db, env: Env, scan: Scan): Db {
    var queued := Queued(db, scan);
    if scan.operationId in queued.raws
      then ApplyAll(queued, PlanProcessRaw(queued, env, scan.operationId, queued.raws[scan.operationId].rowId))
    else queued
  }

  lemma QueuedIs(db: Db, scan: Scan)
    requires scan.operationId !in db.raws
    ensures Queued(db, scan) == Apply(db, InsertRaw(scan, RawPending, None, "", None, None))
  {
    OneWrite(db, PlanIngestFast(db, scan));
  }

  lemma DecisionIgnoresRaws(db: Db, queued: Db, env: Env, e: EventId, g: RegistrationId, typeCode: string,
                            gate: Option<nat>, kind: MovementKind, token: nat)
    requires e in env.events && db.movements == queued.movements
    ensures Decide(db, env, e, g, typeCode, gate, kind, token) == Decide(queued, env, e, g, typeCode, gate, kind, token)
  {
    assert HasEntered(db, e, g) <==> HasEntered(queued, e, g);
  }

  predicate SameLog(a: Db, b: Db) { a.movements == b.movements && a.offline == b.offline }

  lemma {:induction false} RawUpdatesKeepLog(db: Db, writes: seq<Write>)
    requires forall w :: w in writes ==> w.UpdateRaw?
    ensures SameLog(ApplyAll(db, writes), db)
    decreases |writes|
  {
    if writes != [] { RawUpdatesKeepLog(Apply(db, writes[0]), writes[1..]); }
  }

  lemma PendingPlan(queued: Db, env: Env, scan: Scan)
    requires var op := scan.operationId;
             op in queued.raws && queued.raws[op].scan == scan && queued.raws[op].status == RawPending
    requires ChecksPass(env, scan) && scan.checkpointId.Some?
    requires var v := ValidateQr(env, scan.qr, scan.eventId); v.PendingReference? || v.PendingSigned?
    ensures var kept := KeepPending(queued, scan, ValidateQr(env, scan.qr, scan.eventId));
            var plan := PlanProcessRaw(queued, env, scan.operationId, queued.raws[scan.operationId].rowId);
            |kept| <= |plan| && plan[..|kept|] == kept && forall w :: w in plan[|kept|..] ==> w.UpdateRaw?
  {
  }

  lemma WorkerKeepsPending(db: Db, env: Env, scan: Scan)
    requires scan.operationId !in db.raws && ChecksPass(env, scan) && scan.checkpointId.Some?
    requires var v := ValidateQr(env, scan.qr, scan.eventId); v.PendingReference? || v.PendingSigned?
    ensures SameLog(Worked(db, env, scan), Direct(db, env, scan))
  {
    QueuedIs(db, scan);
    DirectIs(db, env, scan);
    var queued := Queued(db, scan);
    var kept := KeepPending(queued, scan, ValidateQr(env, scan.qr, scan.eventId));
    var plan := PlanProcessRaw(queued, env, scan.operationId, queued.raws[scan.operationId].rowId);
    PendingPlan(queued, env, scan);
    assert plan == kept + plan[|kept|..];
    ApplyAllConcat(queued, kept, plan[|kept|..]);
    RawUpdatesKeepLog(ApplyAll(queued, kept), plan[|kept|..]);
    OneWrite(queued, kept);
    assert PlanScan(db, env, scan) == kept;
  }

  lemma DirectIs(db: Db, env: Env, scan: Scan)
    requires scan.operationId !in db.raws
    ensures var plan := PlanScan(db, env, scan);
            |plan| <= 1 && Direct(db, env, scan) == if plan == [] then db else Apply(db, plan[0])
  {
    var plan := PlanScan(db, env, scan);
    OneWrite(db, plan);
  }

  /** The worker makes exactly the row of the log that direct ingestion makes, ids included. */
  lemma WorkerMakesSameMovement(db: Db, env: Env, scan: Scan)
    requires scan.operationId !in db.raws && ChecksPass(env, scan) && ValidateQr(env, scan.qr, scan.eventId).Valid?
    requires db.nextId !in db.movements
    ensures SameLog(Worked(db, env, scan), Direct(db, env, scan))
  {
    QueuedIs(db, scan);
    DirectIs(db, env, scan);
    var queued := Queued(db, scan);
    var op := scan.operationId;
    var v := ValidateQr(env, scan.qr, scan.eventId);
    DecisionIgnoresRaws(db, queued, env, scan.eventId, v.registrationId, v.typeCode, scan.checkpointId, scan.kind,
                        v.qrTokenId);
    var d := Decide(db, env, scan.eventId, v.registrationId, v.typeCode, scan.checkpointId, scan.kind, v.qrTokenId);
    var plan := PlanProcessRaw(queued, env, op, queued.raws[op].rowId);
    assert plan[0] == UpdateProcessed(op, d);
    RawUpdatesKeepLog(Apply(queued, plan[0]), plan[1..]);
  }

  lemma WorkerRejects(db: Db, env: Env, scan: Scan)
    requires scan.operationId !in db.raws
    requires var v := ValidateQr(env, scan.qr, scan.eventId);
             !ChecksPass(env, scan) || v.Invalid? || (!v.Valid? && scan.checkpointId.None?)
    ensures SameLog(Worked(db, env, scan), db) && SameLog(Direct(db, env, scan), db)
  {
    QueuedIs(db, scan);
    DirectIs(db, env, scan);
    var queued := Queued(db, scan);
    RawUpdatesKeepLog(queued, PlanProcessRaw(queued, env, scan.operationId, queued.raws[scan.operationId].rowId));
  }

  lemma SameLogs(db: Db, env: Env, scan: Scan)
    requires Inv(db) && scan.operationId !in db.raws
    ensures SameLog(Worked(db, env, scan), Direct(db, env, scan))
  {
    var v := ValidateQr(env, scan.qr, scan.eventId);
    if ChecksPass(env, scan) && v.Valid? {
      WorkerMakesSameMovement(db, env, scan);
    } else if ChecksPass(env, scan) && !v.Invalid? && scan.checkpointId.Some? {
      WorkerKeepsPending(db, env, scan);
    } else {
      WorkerRejects(db, env, scan);
    }
  }

  /** Writes that insert no second row and delete none leave every raw scan its id. */
  lemma {:induction false} RowIdsStay(db: Db, writes: seq<Write>, op: OperationId)
    requires op in db.raws && forall w :: w in writes ==> w.UpdateRaw? || w.UpdateProcessed? || w.InsertOffline?
    ensures op in ApplyAll(db, writes).raws && ApplyAll(db, writes).raws[op].rowId == db.raws[op].rowId
    decreases |writes|
  {
    if writes != [] { RowIdsStay(Apply(db, writes[0]), writes[1..], op); }
  }

  lemma WorkerInsertsNoRaw(db: Db, env: Env, op: OperationId, rowId: nat)
    ensures forall w :: w in PlanProcessRaw(db, env, op, rowId) ==>
            w.UpdateRaw? || w.UpdateProcessed? || w.InsertOffline?
  {
  }

  /** Every raw scan, old or new, has in both states the id it had or the next free one. */
  lemma RowIds(db: Db, env: Env, scan: Scan, op: OperationId)
    requires scan.operationId !in db.raws
    ensures var id := if op in db.raws then Some(db.raws[op].rowId)
            else if op == scan.operationId then Some(db.nextId) else None;
            && (op in Worked(db, env, scan).raws <==> id.Some?)
            && (op in Worked(db, env, scan).raws ==> Worked(db, env, scan).raws[op].rowId == id.value)
            && (op in Direct(db, env, scan).raws ==> id.Some? && Direct(db, env, scan).raws[op].rowId == id.value)
            && (op in db.raws ==> op in Direct(db, env, scan).raws)
  {
    WorkedRowIds(db, env, scan, op);
    DirectRowIds(db, env, scan, op);
  }

  lemma WorkedRowIds(db: Db, env: Env, scan: Scan, op: OperationId)
    requires scan.operationId !in db.raws
    ensures var id := if op in db.raws then Some(db.raws[op].rowId)
            else if op == scan.operationId then Some(db.nextId) else None;
            && (op in Worked(db, env, scan).raws <==> id.Some?)
            && (op in Worked(db, env, scan).raws ==> Worked(db, env, scan).raws[op].rowId == id.value)
  {
    QueuedIs(db, scan);
    var queued := Queued(db, scan);
    var plan := PlanProcessRaw(queued, env, scan.operationId, db.nextId);
    WorkerInsertsNoRaw(queued, env, scan.operationId, db.nextId);
    if op in queued.raws { RowIdsStay(queued, plan, op); } else { NoNewRows(queued, plan, op); }
  }

  lemma DirectRowIds(db: Db, env: Env, scan: Scan, op: OperationId)
    requires scan.operationId !in db.raws
    ensures op in db.raws ==> op in Direct(db, env, scan).raws
                              && Direct(db, env, scan).raws[op].rowId == db.raws[op].rowId
    ensures op !in db.raws && op in Direct(db, env, scan).raws ==>
              op == scan.operationId && Direct(db, env, scan).raws[op].rowId == db.nextId
  {
    DirectIs(db, env, scan);
    if PlanScan(db, env, scan) != [] { InsertsOnlyItsRow(db, env, scan, PlanScan(db, env, scan)[0], op); }
  }

  lemma InsertsOnlyItsRow(db: Db, env: Env, scan: Scan, w: Write, op: OperationId)
    requires w in PlanScan(db, env, scan) && scan.operationId !in db.raws
    ensures op in db.raws ==> op in Apply(db, w).raws && Apply(db, w).raws[op].rowId == db.raws[op].rowId
    ensures op !in db.raws && op in Apply(db, w).raws ==>
              op == scan.operationId && Apply(db, w).raws[op].rowId == db.nextId
  {
  }

  lemma {:induction false} NoNewRows(db: Db, writes: seq<Write>, op: OperationId)
    requires op !in db.raws && forall w :: w in writes ==> w.UpdateRaw? || w.UpdateProcessed? || w.InsertOffline?
    ensures op !in ApplyAll(db, writes).raws
    decreases |writes|
  {
    if writes != [] { assert writes[0] in writes; NoNewRows(Apply(db, writes[0]), writes[1..], op); }
  }

  lemma NoRowNoMovement(db: Db, env: Env, scan: Scan)
    requires scan.operationId !in db.raws && scan.operationId !in Direct(db, env, scan).raws
    ensures Direct(db, env, scan).movements == db.movements
  {
    DirectIs(db, env, scan);
  }

  /**
   * For a new operation id, on equal tables and clock: whatever the code
   * means, whichever check fails, and whether or not the worker's last update
   * fails, both routes leave the same movements and the same offline scans.
   */
  lemma FastPathRefinesDirect(db: Db, env: Env, scan: Scan)
    requires Inv(db) && scan.operationId !in db.raws
    ensures SameLog(Worked(db, env, scan), Direct(db, env, scan))
    ensures forall op :: MovementOf(Worked(db, env, scan), op) == MovementOf(Direct(db, env, scan), op)
  {
    SameLogs(db, env, scan);
    forall op ensures MovementOf(Worked(db, env, scan), op) == MovementOf(Direct(db, env, scan), op) {
      RowIds(db, env, scan, op);
      DirectIs(db, env, scan);
      if op == scan.operationId && op !in Direct(db, env, scan).raws { NoRowNoMovement(db, env, scan); }
    }
  }
}
