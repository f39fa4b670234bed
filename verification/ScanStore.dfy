/**
 * Scan ingestion over tables that are updated in place, one awaited write
 * after another; each request leaves the tables its plan describes.
 */
module ScanStore {
  import opened Wrappers
  import opened ScanTables
  import opened ScanInvariants
  import opened ScanRequests

  class Scans {
    var raws: map<OperationId, RawScan>
    var movements: map<nat, Movement>
    var offline: map<OperationId, OfflineScan>
    var nextId: nat

    constructor ()
      ensures Inv(State())
    {
      raws, movements, offline, nextId := map[], map[], map[], 0;
    }

    function State(): Db
      reads this
    {
      Db(raws, movements, offline, nextId)
    }

    // ----- Single writes -------------------------------------------------

    method CreateRaw(scan: Scan, status: RawStatus, result: Option<MovementResult>, reason: string,
                     registrationId: Option<RegistrationId>, qrTokenId: Option<nat>)
      modifies this
      ensures State() == Apply(old(State()), InsertRaw(scan, status, result, reason, registrationId, qrTokenId))
    {
      if scan.operationId !in raws {
        raws := raws[scan.operationId := RawScan(nextId, scan, status, result, reason, registrationId, qrTokenId)];
        nextId := nextId + 1;
      }
    }

    method RemoveRaw(op: OperationId)
      modifies this
      ensures State() == Apply(old(State()), DeleteRaw(op))
    {
      if op in raws && raws[op].rowId !in movements {
        raws := raws - {op};
      }
    }

    method SetRaw(op: OperationId, status: RawStatus, result: Option<MovementResult>, reason: string,
                  registrationId: Option<RegistrationId>, qrTokenId: Option<nat>)
      modifies this
      ensures State() == Apply(old(State()), UpdateRaw(op, status, result, reason, registrationId, qrTokenId))
    {
      if op in raws {
        var raw := raws[op].(status := status, result := result, reason := reason);
        if registrationId.Some? { raw := raw.(registrationId := registrationId); }
        if qrTokenId.Some? { raw := raw.(qrTokenId := qrTokenId); }
        raws := raws[op := raw];
      }
    }

    /** The transaction of a scan that is new: its row, then its movement. */
    method CreateProcessedScanAndMovement(scan: Scan, d: Decision) returns (rowId: nat, movementId: nat)
      modifies this
      ensures State() == Apply(old(State()), InsertProcessed(scan, d))
      ensures scan.operationId !in old(raws) ==> NamesOwnMovement(State(), scan.operationId, rowId, movementId)
                                                 && rowId == old(nextId) && movementId == old(nextId) + 1
    {
      rowId, movementId := 0, 0;
      if scan.operationId !in raws {
        rowId := nextId;
        raws := raws[scan.operationId :=
                     RawScan(rowId, scan, RawProcessed, Some(d.result), d.reason, Some(d.registrationId),
                             Some(d.qrTokenId))];
        movementId := nextId + 1;
        movements := movements[rowId := MovementFor(movementId, scan, d)];
        nextId := nextId + 2;
      }
    }

    /** The transaction of a scan that has a row already: the movement repeats that row, not the caller's scan. */
    method UpdateRawScanAndCreateMovement(op: OperationId, d: Decision) returns (movementId: nat)
      modifies this
      ensures State() == Apply(old(State()), UpdateProcessed(op, d))
      ensures MovementOf(old(State()), op).None? ==> movementId == old(nextId)
    {
      movementId := nextId;
      if op in raws && raws[op].rowId !in movements {
        var raw := raws[op];
        raws := raws[op := raw.(status := RawProcessed, result := Some(d.result), reason := d.reason,
                                registrationId := Some(d.registrationId), qrTokenId := Some(d.qrTokenId))];
        movements := movements[raw.rowId := MovementFor(movementId, raw.scan, d)];
        nextId := nextId + 1;
      }
    }

    method CreateOffline(op: OperationId, row: OfflineScan)
      modifies this
      ensures State() == Apply(old(State()), InsertOffline(op, row))
    {
      if op !in offline { offline := offline[op := row]; }
    }

    method SetOffline(op: OperationId, row: OfflineScan)
      modifies this`offline
      ensures State() == old(State()).(offline := if op in old(offline) then old(offline)[op := row] else old(offline))
    {
      if op in offline { offline := offline[op := row]; }
    }

    // ----- Requests ------------------------------------------------------

    method ScanOnce(env: Env, scan: Scan)
      modifies this
      ensures State() == ApplyAll(old(State()), PlanScan(old(State()), env, scan))
    {
      ghost var db := State();
      OneWrite(db, PlanScan(db, env, scan));
      if !ChecksPass(env, scan) { return; }
      var verdict := ValidateQr(env, scan.qr, scan.eventId);
      if verdict.PendingReference? || verdict.PendingSigned? {
        if scan.checkpointId.Some? && scan.operationId !in offline {
          CreateOffline(scan.operationId, PendingRow(scan, verdict));
        }
        return;
      }
      if verdict.Invalid? {
        CreateRaw(scan, RawInvalid, Some(Denied), DenialReason(verdict.reason), verdict.holder, verdict.qrTokenRow);
        return;
      }
      var d := Decide(State(), env, scan.eventId, verdict.registrationId, verdict.typeCode, scan.checkpointId,
                      scan.kind, verdict.qrTokenId);
      var _, _ := CreateProcessedScanAndMovement(scan, d);
    }

    method Ingest(env: Env, scan: Scan)
      modifies this
      ensures State() == ApplyAll(old(State()), PlanIngest(old(State()), env, scan))
    {
      ghost var db := State();
      var op := scan.operationId;
      if op in raws {
        if !Retryable(State(), op) { return; }
        RemoveRaw(op);
        assert PlanIngest(db, env, scan)[1..] == PlanScan(State(), env, scan);
      }
      ScanOnce(env, scan);
    }

    method IngestFast(scan: Scan)
      modifies this
      ensures State() == ApplyAll(old(State()), PlanIngestFast(old(State()), scan))
    {
      ghost var db := State();
      OneWrite(db, PlanIngestFast(db, scan));
      if scan.operationId in raws { return; }
      CreateRaw(scan, RawPending, None, "", None, None);
    }

    method ProcessOfflineScanOperation(env: Env, op: OperationId) returns (threw: bool)
      modifies this
      ensures State() == ApplyAll(old(State()), PlanProcess(old(State()), env, op).0)
      ensures threw == PlanProcess(old(State()), env, op).1
    {
      ghost var db := State();
      ghost var writes := PlanProcess(db, env, op).0;
      OneWrite(db, writes);
      assert |writes| == 2 ==> ApplyAll(db, writes) == Apply(Apply(db, writes[0]), writes[1]) by {
        if |writes| == 2 {
          assert writes[1..] == [writes[1]] && writes[1..][1..] == [];
          assert ApplyAll(Apply(db, writes[0]), writes[1..]) == Apply(Apply(db, writes[0]), writes[1]);
        }
      }
      if op !in offline { return true; }
      var o := offline[op];
      if o.status == Processed && o.movementId.Some? { return false; }
      if op in raws && raws[op].rowId in movements {
        SetOffline(op,
                   o.(status := Processed, rawRowId := Some(raws[op].rowId),
                      movementId := Some(movements[raws[op].rowId].id),
                          registrationId := raws[op].registrationId));
        return false;
      }
      var context := ContextOf(env, o);
      if context.Unlinked? { return false; }
      if context.NoToken? || !ReplayChecksPass(env, o) { return true; }
      var d := ReplayDecision(State(), env, o);
      var rowId, movementId;
      if op in raws {
        rowId := raws[op].rowId;
        movementId := UpdateRawScanAndCreateMovement(op, d);
      } else {
        rowId, movementId := CreateProcessedScanAndMovement(ScanOf(op, o), d);
      }
      SetOffline(op,
                 o.(status := Processed, registrationId := Some(d.registrationId), rawRowId := Some(rowId),
                    movementId := Some(movementId)));
      threw := op in env.untouched;
    }

    /** The worker of fast ingestion; the last update is its error handler's. */
    method ProcessRaw(env: Env, op: OperationId, rowId: nat)
      modifies this
      ensures State() == ApplyAll(old(State()), PlanProcessRaw(old(State()), env, op, rowId))
    {
      ghost var db := State();
      if op !in raws || raws[op].rowId != rowId || raws[op].status != RawPending { return; }
      var scan := raws[op].scan;
      var verdict := ValidateQr(env, scan.qr, scan.eventId);
      var pending := verdict.PendingReference? || verdict.PendingSigned?;
      var failed := !ChecksPass(env, scan) || (pending && scan.checkpointId.None?);
      ghost var writes: seq<Write> := [];
      if !failed {
        if pending {
          ghost var kept := KeepPending(db, scan, verdict);
          if scan.operationId !in offline { CreateOffline(scan.operationId, PendingRow(scan, verdict)); }
          OneWrite(db, kept);
          assert State() == ApplyAll(db, kept);
          var reason := if verdict.PendingReference? then "OFFLINE_REGISTRATION_NOT_SYNCED"
            else "OFFLINE_QR_PENDING_SYNC";
          SetRaw(op, RawFailed, Some(Warning), reason, None, None);
          writes := kept + [UpdateRaw(op, RawFailed, Some(Warning), reason, None, None)];
          ApplyAllConcat(db, kept, [UpdateRaw(op, RawFailed, Some(Warning), reason, None, None)]);
        } else if verdict.Invalid? {
          SetRaw(op, RawInvalid, Some(Denied), DenialReason(verdict.reason), verdict.holder, verdict.qrTokenRow);
          writes := [UpdateRaw(op, RawInvalid, Some(Denied), DenialReason(verdict.reason), verdict.holder,
                               verdict.qrTokenRow)];
        } else {
          var d := Decide(State(), env, scan.eventId, verdict.registrationId, verdict.typeCode, scan.checkpointId,
                          scan.kind, verdict.qrTokenId);
          var _ := UpdateRawScanAndCreateMovement(op, d);
          writes := [UpdateProcessed(op, d)];
        }
        failed := op in env.untouched;
      }
      assert State() == ApplyAll(db, writes);
      ghost var tail := if failed then MarkFailed(op) else [];
      if failed { SetRaw(op, RawFailed, Some(Denied), "SCAN_PROCESSING_FAILED", None, None); }
      ApplyAllConcat(db, writes, tail);
      assert PlanProcessRaw(db, env, op, rowId) == writes + tail;
    }

    method IngestOfflineScan(env: Env, u: Upload)
      modifies this
      ensures State() == ApplyAll(old(State()), PlanOffline(old(State()), env, u))
    {
      ghost var db := State();
      OneWrite(db, PlanOffline(db, env, u));
      if !UploadAccepted(env, u) { return; }
      var op, payload := u.operationId, env.signed[u.signedQr];
      var g := LinkedTo(env, payload.qrToken);
      if op in offline {
        var existing := offline[op];
        if existing.hash.Some? && existing.hash.value != payload.hash {
          SetOffline(op, existing.(status := Conflicted));
        } else if g.Some? && existing.status !in {Processed, Conflicted} {
          SetOffline(op, existing.(status := Linked, registrationId := g,
                                   sessionId := if u.sessionId.Some? then u.sessionId else existing.sessionId));
          assert PlanOffline(db, env, u)[1..] == PlanProcess(State(), env, op).0;
          var _ := ProcessOfflineScanOperation(env, op);
        }
      } else {
        CreateOffline(op, UploadRow(u, payload, g));
        if g.Some? {
          assert PlanOffline(db, env, u)[1..] == PlanProcess(State(), env, op).0;
          var _ := ProcessOfflineScanOperation(env, op);
        }
      }
    }

    method TakeTurn(env: Env, op: OperationId, g: RegistrationId)
      modifies this
      ensures State() == ApplyAll(old(State()), PlanTurn(old(State()), env, op, g))
    {
      TurnInSteps(State(), env, op, g);
      if op in offline { SetOffline(op, offline[op].(status := Linked, registrationId := Some(g))); }
      var threw := ProcessOfflineScanOperation(env, op);
      if threw {
        if op in offline { SetOffline(op, offline[op].(status := Failed)); }
      }
    }

    method ReconcileOfflineRegistration(env: Env, order: seq<OperationId>, g: RegistrationId)
      modifies this
      ensures State() == ApplyAll(old(State()), PlanReconcile(old(State()), env, order, g))
    {
      ghost var goal := Reconciled(State(), env, order, g);
      var i := 0;
      assert order[0..] == order;
      while i < |order|
        invariant 0 <= i <= |order|
        invariant Reconciled(State(), env, order[i..], g) == goal
      {
        TurnThenRest(State(), env, order[i..], g);
        assert order[i..][1..] == order[i + 1..];
        TakeTurn(env, order[i], g);
        i := i + 1;
      }
    }
  }
}
