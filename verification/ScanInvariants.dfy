/**
 * What every write of scan ingestion keeps, however the writes of different
 * requests interleave: one movement per operation, never changed or lost.
 */
module ScanInvariants {
  import opened Wrappers
  import opened ScanTables

  predicate Owned(db: Db, row: nat) { exists op :: op in db.raws && db.raws[op].rowId == row }

  predicate NamesOwnMovement(db: Db, op: OperationId, rowId: nat, movementId: nat) {
    op in db.raws && db.raws[op].rowId == rowId && rowId in db.movements && db.movements[rowId].id == movementId
  }

  /** A movement repeats the scan it was made from. */
  predicate Copies(m: Movement, scan: Scan) {
    m == MovementFor(m.id, scan, Decision(m.registrationId, m.qrTokenId, m.result, m.reason))
  }

  ghost predicate RawRowsInv(db: Db) {
    && (forall op :: op in db.raws ==> db.raws[op].rowId < db.nextId && db.raws[op].scan.operationId == op)
    && (forall a, b :: a in db.raws && b in db.raws && db.raws[a].rowId == db.raws[b].rowId ==> a == b)
    && (forall op :: op in db.raws && db.raws[op].status == RawPending ==> db.raws[op].rowId !in db.movements)
  }

  ghost predicate MovementsInv(db: Db) {
    && (forall row :: row in db.movements ==> row < db.nextId && db.movements[row].id < db.nextId && Owned(db, row))
    && (forall a, b :: a in db.movements && b in db.movements && db.movements[a].id == db.movements[b].id ==> a == b)
    && (forall op :: op in db.raws && db.raws[op].rowId in db.movements ==>
        Copies(db.movements[db.raws[op].rowId], db.raws[op].scan))
  }

  ghost predicate OfflineInv(db: Db) {
    forall op :: op in db.offline ==>
      var o := db.offline[op];
      && (o.movementId.Some? ==> o.rawRowId.Some? && NamesOwnMovement(db, op, o.rawRowId.value, o.movementId.value))
      && (o.status == Processed ==> o.movementId.Some?)
  }

  ghost predicate Inv(db: Db) { RawRowsInv(db) && MovementsInv(db) && OfflineInv(db) }

  /** What the code has read before it sends a write: only the last two kinds carry an id that was read. */
  predicate WellFormed(w: Write) {
    match w
    case InsertOffline(_, row) => row.movementId.None? && row.rawRowId.None? && row.status in {PendingLink, Linked}
    case InsertRaw(_, status, _, _, _, _) => status != RawProcessed
    case UpdateRaw(_, status, _, _, _, _) => status in {RawFailed, RawInvalid}
    case _ => true
  }

  predicate Backed(db: Db, w: Write) {
    w.FinishOffline? ==> NamesOwnMovement(db, w.operationId, w.rawRowId, w.movementId)
  }

  /** No movement is lost or changed, and no offline operation forgets its movement. */
  ghost predicate KeepsMovements(before: Db, after: Db) {
    && (forall op :: MovementOf(before, op).Some? ==> MovementOf(after, op) == MovementOf(before, op))
    && (forall op :: op in before.offline && before.offline[op].movementId.Some? ==>
          op in after.offline && after.offline[op].movementId == before.offline[op].movementId)
  }

  /** What one write can do to one raw scan. */
  lemma RawAfter(db: Db, w: Write, op: OperationId)
    requires WellFormed(w) && op in Apply(db, w).raws
    ensures var raw := Apply(db, w).raws[op];
            || (op in db.raws && raw.rowId == db.raws[op].rowId && raw.scan == db.raws[op].scan
                && (raw.status == RawPending ==> raw == db.raws[op]))
            || (op !in db.raws && raw.rowId == db.nextId && raw.scan.operationId == op
                && db.nextId < Apply(db, w).nextId
                && (raw.status == RawPending ==> w.InsertRaw?))
  {
  }

  /** What one write can do to one movement: nothing, or make it for the raw scan it belongs to. */
  lemma MovementAfter(db: Db, w: Write, row: nat)
    requires RawRowsInv(db) && MovementsInv(db) && row in Apply(db, w).movements
    ensures var after := Apply(db, w);
            || (row in db.movements && after.movements[row] == db.movements[row])
            || (row !in db.movements && (w.InsertProcessed? || w.UpdateProcessed?)
                && var op := if w.InsertProcessed? then w.scan.operationId else w.operationId;
                   op in after.raws && after.raws[op].rowId == row && after.raws[op].status == RawProcessed
                   && Copies(after.movements[row], after.raws[op].scan)
                   && db.nextId <= after.movements[row].id < after.nextId && row < after.nextId)
  {
  }

  lemma MovementsStay(db: Db, w: Write, row: nat)
    requires MovementsInv(db) && row in db.movements
    ensures row in Apply(db, w).movements && Apply(db, w).movements[row] == db.movements[row]
  {
  }

  lemma OwnMovementStays(db: Db, w: Write, op: OperationId, rowId: nat, movementId: nat)
    requires RawRowsInv(db) && MovementsInv(db) && NamesOwnMovement(db, op, rowId, movementId)
    ensures NamesOwnMovement(Apply(db, w), op, rowId, movementId)
  {
    MovementsStay(db, w, rowId);
  }

  lemma ApplyKeepsRawRows(db: Db, w: Write)
    requires RawRowsInv(db) && MovementsInv(db) && WellFormed(w)
    ensures RawRowsInv(Apply(db, w))
  {
    var after := Apply(db, w);
    forall op | op in after.raws
      ensures after.raws[op].rowId < after.nextId && after.raws[op].scan.operationId == op
      ensures after.raws[op].status == RawPending ==> after.raws[op].rowId !in after.movements
    {
      RawAfter(db, w, op);
      if after.raws[op].status == RawPending && after.raws[op].rowId in after.movements {
        MovementAfter(db, w, after.raws[op].rowId);
      }
    }
    forall a, b | a in after.raws && b in after.raws && after.raws[a].rowId == after.raws[b].rowId ensures a == b {
      RawAfter(db, w, a);
      RawAfter(db, w, b);
    }
  }

  lemma OwnershipStays(db: Db, w: Write, row: nat)
    requires RawRowsInv(db) && MovementsInv(db) && WellFormed(w) && row in Apply(db, w).movements
    ensures Owned(Apply(db, w), row)
  {
    MovementAfter(db, w, row);
    if row in db.movements {
      var op :| op in db.raws && db.raws[op].rowId == row;
      OwnMovementStays(db, w, op, row, db.movements[row].id);
    }
  }

  lemma ApplyKeepsMovements(db: Db, w: Write)
    requires RawRowsInv(db) && MovementsInv(db) && WellFormed(w)
    ensures MovementsInv(Apply(db, w))
  {
    var after := Apply(db, w);
    forall row | row in after.movements
      ensures row < after.nextId && after.movements[row].id < after.nextId && Owned(after, row)
    {
      OwnershipStays(db, w, row);
      MovementAfter(db, w, row);
    }
    forall a, b | a in after.movements && b in after.movements && after.movements[a].id == after.movements[b].id
      ensures a == b
    {
      MovementAfter(db, w, a);
      MovementAfter(db, w, b);
    }
    forall op | op in after.raws && after.raws[op].rowId in after.movements
      ensures Copies(after.movements[after.raws[op].rowId], after.raws[op].scan)
    {
      RawAfter(db, w, op);
      MovementAfter(db, w, after.raws[op].rowId);
      ApplyKeepsRawRows(db, w);
    }
  }

  /** What one write can do to one offline operation's link to its movement. */
  lemma OfflineAfter(db: Db, w: Write, op: OperationId)
    requires OfflineInv(db) && WellFormed(w) && Backed(db, w) && op in Apply(db, w).offline
    ensures var o := Apply(db, w).offline[op];
            && (o.movementId.Some? ==>
                o.rawRowId.Some? && NamesOwnMovement(db, op, o.rawRowId.value, o.movementId.value))
            && (o.status == Processed ==> o.movementId.Some?)
  {
  }

  lemma ApplyKeepsOffline(db: Db, w: Write)
    requires Inv(db) && WellFormed(w) && Backed(db, w)
    ensures OfflineInv(Apply(db, w))
  {
    var after := Apply(db, w);
    forall op | op in after.offline
      ensures var o := after.offline[op];
              && (o.movementId.Some? ==>
                  o.rawRowId.Some? && NamesOwnMovement(after, op, o.rawRowId.value, o.movementId.value))
              && (o.status == Processed ==> o.movementId.Some?)
    {
      OfflineAfter(db, w, op);
      var o := after.offline[op];
      if o.movementId.Some? { OwnMovementStays(db, w, op, o.rawRowId.value, o.movementId.value); }
    }
  }

  lemma MovementIdStays(db: Db, w: Write, op: OperationId)
    requires OfflineInv(db) && Backed(db, w) && op in db.offline && db.offline[op].movementId.Some?
    ensures op in Apply(db, w).offline && Apply(db, w).offline[op].movementId == db.offline[op].movementId
  {
    var o := db.offline[op];
    assert NamesOwnMovement(db, op, o.rawRowId.value, o.movementId.value);
  }

  lemma ApplyKeepsInv(db: Db, w: Write)
    requires Inv(db) && WellFormed(w) && Backed(db, w)
    ensures Inv(Apply(db, w)) && KeepsMovements(db, Apply(db, w))
  {
    ApplyKeepsRawRows(db, w);
    ApplyKeepsMovements(db, w);
    ApplyKeepsOffline(db, w);
    forall op | MovementOf(db, op).Some? ensures MovementOf(Apply(db, w), op) == MovementOf(db, op) {
      OwnMovementStays(db, w, op, db.raws[op].rowId, MovementOf(db, op).value.id);
      MovementsStay(db, w, db.raws[op].rowId);
    }
    forall op | op in db.offline && db.offline[op].movementId.Some?
      ensures op in Apply(db, w).offline && Apply(db, w).offline[op].movementId == db.offline[op].movementId
    {
      MovementIdStays(db, w, op);
    }
  }

  // ----- Any interleaving ------------------------------------------------

  function After(db: Db, writes: seq<Write>, k: nat): Db
    requires k <= |writes|
  {
    ApplyAll(db, writes[..k])
  }

  lemma AfterStep(db: Db, writes: seq<Write>, k: nat)
    requires k < |writes|
    ensures After(db, writes, k + 1) == Apply(After(db, writes, k), writes[k])
  {
    assert writes[..k + 1] == writes[..k] + [writes[k]];
    ApplyAllConcat(db, writes[..k], [writes[k]]);
  }

  /** Writes of many requests in the order they reached the tables; each id sent was read at some earlier moment. */
  ghost predicate Interleaving(db: Db, writes: seq<Write>) {
    forall k :: 0 <= k < |writes| ==>
      WellFormed(writes[k]) && exists j: nat :: j <= k && Backed(After(db, writes, j), writes[k])
  }

  lemma {:induction false} OwnMovementStaysAlong(db: Db, writes: seq<Write>, j: nat, k: nat, op: OperationId,
                                                 rowId: nat, movementId: nat)
    requires j <= k <= |writes| && NamesOwnMovement(After(db, writes, j), op, rowId, movementId)
    requires forall i: nat :: i <= k ==> Inv(After(db, writes, i))
    ensures NamesOwnMovement(After(db, writes, k), op, rowId, movementId)
    decreases k - j
  {
    if j < k {
      AfterStep(db, writes, j);
      OwnMovementStays(After(db, writes, j), writes[j], op, rowId, movementId);
      OwnMovementStaysAlong(db, writes, j + 1, k, op, rowId, movementId);
    }
  }

  lemma StillBacked(db: Db, writes: seq<Write>, k: nat)
    requires Interleaving(db, writes) && k < |writes|
    requires forall i: nat :: i <= k ==> Inv(After(db, writes, i))
    ensures WellFormed(writes[k]) && Backed(After(db, writes, k), writes[k])
  {
    var w := writes[k];
    if w.FinishOffline? {
      var j: nat :| j <= k && Backed(After(db, writes, j), w);
      OwnMovementStaysAlong(db, writes, j, k, w.operationId, w.rawRowId, w.movementId);
    }
  }

  lemma {:induction false} InterleavingKeepsInv(db: Db, writes: seq<Write>, k: nat)
    requires Inv(db) && Interleaving(db, writes) && k <= |writes|
    ensures Inv(After(db, writes, k))
    decreases k
  {
    if k > 0 {
      forall i: nat | i <= k - 1 ensures Inv(After(db, writes, i)) { InterleavingKeepsInv(db, writes, i); }
      StillBacked(db, writes, k - 1);
      AfterStep(db, writes, k - 1);
      ApplyKeepsInv(After(db, writes, k - 1), writes[k - 1]);
    }
  }

  /**
   * However requests interleave: between any two moments no operation's
   * movement is lost, replaced or altered, and no two operations share one.
   */
  lemma {:induction false} MovementsAreForever(db: Db, writes: seq<Write>, i: nat, j: nat)
    requires Inv(db) && Interleaving(db, writes) && i <= j <= |writes|
    ensures KeepsMovements(After(db, writes, i), After(db, writes, j))
    ensures var s := After(db, writes, j);
            forall a, b ::
              MovementOf(s, a).Some? && MovementOf(s, b).Some? && MovementOf(s, a).value.id == MovementOf(s, b).value.id
              ==> a == b
    decreases j - i
  {
    InterleavingKeepsInv(db, writes, j);
    if i < j {
      forall k: nat | k <= i ensures Inv(After(db, writes, k)) { InterleavingKeepsInv(db, writes, k); }
      StillBacked(db, writes, i);
      AfterStep(db, writes, i);
      ApplyKeepsInv(After(db, writes, i), writes[i]);
      MovementsAreForever(db, writes, i + 1, j);
    }
  }

  /** A PROCESSED offline operation, at any moment of any interleaving, names the movement of its own raw scan. */
  lemma ProcessedNamesOwnMovement(db: Db, writes: seq<Write>, k: nat, op: OperationId)
    requires Inv(db) && Interleaving(db, writes) && k <= |writes|
    requires op in After(db, writes, k).offline && After(db, writes, k).offline[op].status == Processed
    ensures var s := After(db, writes, k);
            MovementOf(s, op).Some? && s.offline[op].movementId == Some(MovementOf(s, op).value.id)
            && s.offline[op].rawRowId == Some(s.raws[op].rowId) && Copies(MovementOf(s, op).value, s.raws[op].scan)
  {
    InterleavingKeepsInv(db, writes, k);
  }

  lemma EmptyTablesAreValid()
    ensures Inv(Db(map[], map[], map[], 0))
  {
  }
}
