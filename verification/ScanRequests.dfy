/**
 * The five requests that reach the movement log, each as the sequence of
 * awaited writes it sends. A request may stop after any of them.
 */
module ScanRequests {
  import opened Wrappers
  import opened Text
  import opened ScanTables
  import opened ScanInvariants

  /** An offline scan as the device uploads it. */
  datatype Upload = Upload(operationId: OperationId, eventId: EventId, deviceId: nat, sessionId: Option<nat>,
                           checkpointId: nat,
                           signedQr: string, qrToken: Option<string>, registrationOperationId: Option<string>,
                           kind: MovementKind, scannedAt: nat, localResult: Option<string>)

  datatype Request =
    | Ingest(scan: Scan)
    | IngestFast(scan: Scan)
    | ProcessRawScan(operationId: OperationId, rowId: nat)
    | IngestOffline(upload: Upload)
    | Reconcile(eventId: EventId, qrToken: string, registrationOperationId: string, registrationId: RegistrationId,
                order: seq<OperationId>)

  // ----- Direct ingestion ----------------------------------------------

  /** Left by versions that stored an unsynced offline code as an invalid one. */
  predicate Retryable(db: Db, op: OperationId)
    requires op in db.raws
  {
    db.raws[op].status == RawInvalid && db.raws[op].reason == "OFFLINE_REGISTRATION_NOT_SYNCED"
      && MovementOf(db, op).None?
  }

  /** The offline operation an online scan of an unsynced code becomes. */
  function PendingRow(scan: Scan, verdict: Verdict): OfflineScan
    requires scan.checkpointId.Some? && (verdict.PendingReference? || verdict.PendingSigned?)
  {
    match verdict
    case PendingReference(qrToken, linkedTo) =>
      OfflineScan(scan.eventId, scan.deviceId, scan.sessionId, scan.checkpointId.value, qrToken, None, None,
                  scan.scannedAt,
                  scan.kind, scan.localResult, if linkedTo.Some? then Linked else PendingLink, linkedTo, None, None)
    case PendingSigned(payload) =>
      OfflineScan(scan.eventId, scan.deviceId, scan.sessionId, scan.checkpointId.value, payload.qrToken,
                  Some(payload.registrationOperationId), Some(payload.hash), scan.scannedAt, scan.kind,
                  scan.localResult,
                  PendingLink, None, None, None)
  }

  function KeepPending(db: Db, scan: Scan, verdict: Verdict): seq<Write>
    requires scan.checkpointId.Some? && (verdict.PendingReference? || verdict.PendingSigned?)
  {
    if scan.operationId in db.offline then [] else [InsertOffline(scan.operationId, PendingRow(scan, verdict))]
  }

  function PlanScan(db: Db, env: Env, scan: Scan): seq<Write> {
    if !ChecksPass(env, scan) then []
    else
      var verdict := ValidateQr(env, scan.qr, scan.eventId);
      match verdict
      case Invalid(reason, token, holder) =>
        [InsertRaw(scan, RawInvalid, Some(Denied), DenialReason(reason), holder, token)]
      case Valid(token, g, typeCode) =>
        [InsertProcessed(scan, Decide(db, env, scan.eventId, g, typeCode, scan.checkpointId, scan.kind, token))]
      case _ => if scan.checkpointId.None? then [] else KeepPending(db, scan, verdict)
  }

  function PlanIngest(db: Db, env: Env, scan: Scan): seq<Write> {
    if scan.operationId !in db.raws then PlanScan(db, env, scan)
    else if !Retryable(db, scan.operationId) then []
    else [DeleteRaw(scan.operationId)] + PlanScan(Apply(db, DeleteRaw(scan.operationId)), env, scan)
  }

  // ----- Fast ingestion and its worker ---------------------------------

  function PlanIngestFast(db: Db, scan: Scan): seq<Write> {
    if scan.operationId in db.raws then [] else [InsertRaw(scan, RawPending, None, "", None, None)]
  }

  function MarkFailed(op: OperationId): seq<Write> {
    [UpdateRaw(op, RawFailed, Some(Denied), "SCAN_PROCESSING_FAILED", None, None)]
  }

  /** What the worker does for a pending raw scan it has read. */
  function PlanWork(db: Db, env: Env, op: OperationId, scan: Scan): seq<Write> {
    if !ChecksPass(env, scan) then MarkFailed(op)
    else
      var verdict := ValidateQr(env, scan.qr, scan.eventId);
      if (verdict.PendingReference? || verdict.PendingSigned?) && scan.checkpointId.None? then MarkFailed(op)
      else
        var writes := match verdict
          case Invalid(reason, token, holder) =>
            [UpdateRaw(op, RawInvalid, Some(Denied), DenialReason(reason), holder, token)]
          case Valid(token, g, typeCode) =>
            [UpdateProcessed(op, Decide(db, env, scan.eventId, g, typeCode, scan.checkpointId, scan.kind, token))]
          case PendingReference(_, _) =>
            KeepPending(db, scan, verdict) +
              [UpdateRaw(op, RawFailed, Some(Warning), "OFFLINE_REGISTRATION_NOT_SYNCED", None, None)]
          case PendingSigned(_) =>
            KeepPending(db, scan, verdict) +
              [UpdateRaw(op, RawFailed, Some(Warning), "OFFLINE_QR_PENDING_SYNC", None, None)];
        writes + if op in env.untouched then MarkFailed(op) else []
  }

  predicate AwaitsWork(db: Db, op: OperationId, rowId: nat) {
    op in db.raws && db.raws[op].rowId == rowId && db.raws[op].status == RawPending
  }

  function PlanProcessRaw(db: Db, env: Env, op: OperationId, rowId: nat): seq<Write> {
    if AwaitsWork(db, op, rowId) then PlanWork(db, env, op, db.raws[op].scan) else []
  }

  // ----- Processing one offline operation ------------------------------

  datatype Context = Unlinked | NoToken | Known(token: QrToken, typeCode: string)

  /** An absent registration operation id matches nothing. */
  function FindLinked(mappings: seq<Mapping>, o: OfflineScan): Option<Mapping> {
    if mappings == [] then None
    else
      var m := mappings[0];
      if m.eventId == o.eventId && m.registrationId.Some?
         && (m.qrToken == o.qrToken || o.registrationOperationId == Some(m.registrationOperationId))
      then Some(m)
      else FindLinked(mappings[1..], o)
  }

  /** getCanonicalContextForOfflineScan: unlike the online routes it asks for an ACTIVE token and nothing more. */
  function ContextOf(env: Env, o: OfflineScan): Context {
    match FindLinked(env.mappings, o)
    case None => Unlinked
    case Some(m) =>
      if m.registrationId.None? then Unlinked
      else match FindCanonical(env.tokens, m.registrationId.value, m.canonicalTokenRow, true)
        case None => NoToken
        case Some(t) => if t.registrationId in env.attendees then Known(t, env.attendees[t.registrationId].typeCode)
          else NoToken
  }

  /** A mapping of the scan's event and a registration, with the scanned code or its registration's operation. */
  ghost predicate LinksScan(env: Env, o: OfflineScan, m: Mapping) {
    && m in env.mappings && m.eventId == o.eventId && m.registrationId.Some?
    && (m.qrToken == o.qrToken || o.registrationOperationId == Some(m.registrationOperationId))
  }

  /** An ACTIVE token of the mapping's registration, in its canonical row when it names one. */
  ghost predicate CanonicalFor(env: Env, m: Mapping, t: QrToken) {
    && t in env.tokens && t.status == TokenActive && m.registrationId == Some(t.registrationId)
    && (m.canonicalTokenRow.Some? ==> m.canonicalTokenRow.value == t.rowId)
  }

  lemma {:induction false} FindLinkedIs(env: Env, mappings: seq<Mapping>, o: OfflineScan)
    requires forall m :: m in mappings ==> m in env.mappings
    ensures match FindLinked(mappings, o)
            case Some(m) => m in mappings && LinksScan(env, o, m)
            case None => forall m :: m in mappings ==> !LinksScan(env, o, m)
  {
    if mappings != [] { FindLinkedIs(env, mappings[1..], o); }
  }

  lemma {:induction false} FindCanonicalMisses(tokens: seq<QrToken>, g: RegistrationId, row: Option<nat>)
    ensures FindCanonical(tokens, g, row, true).None? ==>
              forall t :: t in tokens ==>
                !(t.registrationId == g && (row.Some? ==> t.rowId == row.value) && t.status == TokenActive)
  {
    if tokens != [] { FindCanonicalMisses(tokens[1..], g, row); }
  }

  /**
   * What a replay takes an offline scan for: nobody, exactly when no mapping
   * links it; a token of a linking mapping; or nobody for want of such a token.
   */
  lemma ContextIs(env: Env, o: OfflineScan)
    ensures ContextOf(env, o).Unlinked? <==> forall m :: !LinksScan(env, o, m)
    ensures ContextOf(env, o).Known? ==>
              var t := ContextOf(env, o).token;
              && (exists m :: LinksScan(env, o, m) && CanonicalFor(env, m, t)) && t.registrationId in env.attendees
              && ContextOf(env, o).typeCode == env.attendees[t.registrationId].typeCode
    ensures ContextOf(env, o).NoToken? ==>
              exists m :: LinksScan(env, o, m)
                && forall t :: CanonicalFor(env, m, t) ==> t.registrationId !in env.attendees
  {
    FindLinkedIs(env, env.mappings, o);
    var found := FindLinked(env.mappings, o);
    if found.Some? {
      var g, row := found.value.registrationId.value, found.value.canonicalTokenRow;
      FindCanonicalFinds(env.tokens, g, row, true);
      FindCanonicalMisses(env.tokens, g, row);
      assert LinksScan(env, o, found.value);
    }
  }

  predicate ReplayChecksPass(env: Env, o: OfflineScan) {
    && EventOpen(env, o.eventId) && DeviceReady(env, o.deviceId, o.eventId)
    && SessionFits(env, o.sessionId, o.eventId, o.deviceId, o.checkpointId)
    && GateReady(env, Some(o.checkpointId), o.eventId)
  }

  function ScanOf(op: OperationId, o: OfflineScan): Scan {
    Scan(op, o.eventId, o.deviceId, o.sessionId, Some(o.checkpointId), o.qrToken, o.kind, o.scannedAt, o.localResult)
  }

  function ReplayDecision(db: Db, env: Env, o: OfflineScan): Decision
    requires ContextOf(env, o).Known? && EventOpen(env, o.eventId)
  {
    var c := ContextOf(env, o);
    Decide(db, env, o.eventId, c.token.registrationId, c.typeCode, Some(o.checkpointId), o.kind, c.token.rowId)
  }

  /** Whether the operation gets past every look-up and check and makes a movement. */
  predicate MakesMovement(db: Db, env: Env, op: OperationId) {
    && op in db.offline && !(db.offline[op].status == Processed && db.offline[op].movementId.Some?)
    && MovementOf(db, op).None? && ContextOf(env, db.offline[op]).Known? && ReplayChecksPass(env, db.offline[op])
  }

  /** The writes, and whether the call ends by throwing. */
  function PlanProcess(db: Db, env: Env, op: OperationId): (seq<Write>, bool) {
    if op !in db.offline then ([], true)
    else
      var o := db.offline[op];
      if o.status == Processed && o.movementId.Some? then ([], false)
      else if MovementOf(db, op).Some?
      then ([FinishOffline(op, db.raws[op].registrationId, db.raws[op].rowId, MovementOf(db, op).value.id)], false)
      else if ContextOf(env, o).Unlinked? then ([], false)
      else if ContextOf(env, o).NoToken? || !ReplayChecksPass(env, o) then ([], true)
      else
        var d := ReplayDecision(db, env, o);
        var g := Some(d.registrationId);
        var writes :=
          if op in db.raws
          then [UpdateProcessed(op, d), FinishOffline(op, g, db.raws[op].rowId, db.nextId)]
          else [InsertProcessed(ScanOf(op, o), d), FinishOffline(op, g, db.nextId, db.nextId + 1)];
        (writes, op in env.untouched)
  }

  // ----- Offline upload and reconciliation -----------------------------

  function UploadRow(u: Upload, payload: SignedOffline, linkedTo: Option<RegistrationId>): OfflineScan {
    OfflineScan(u.eventId, u.deviceId, u.sessionId, u.checkpointId, payload.qrToken,
                Some(if u.registrationOperationId.Some? then u.registrationOperationId.value
                     else payload.registrationOperationId),
                Some(payload.hash), u.scannedAt, u.kind, u.localResult,
                if linkedTo.Some? then Linked else PendingLink, linkedTo, None, None)
  }

  predicate UploadAccepted(env: Env, u: Upload) {
    && u.signedQr in env.signed && env.signed[u.signedQr].eventId == u.eventId
    && (u.qrToken.Some? ==> u.qrToken.value == env.signed[u.signedQr].qrToken)
    && EventOpen(env, u.eventId) && DeviceReady(env, u.deviceId, u.eventId)
    && SessionReady(env, u.sessionId, u.eventId) && GateReady(env, Some(u.checkpointId), u.eventId)
  }

  function LinkedTo(env: Env, qrToken: string): Option<RegistrationId> {
    var m := FindMapping(env.mappings, qrToken);
    if m.Some? then m.value.registrationId else None
  }

  function ThenProcess(db: Db, env: Env, w: Write, op: OperationId): seq<Write> {
    [w] + PlanProcess(Apply(db, w), env, op).0
  }

  function PlanOffline(db: Db, env: Env, u: Upload): seq<Write> {
    if !UploadAccepted(env, u) then []
    else
      var op, payload := u.operationId, env.signed[u.signedQr];
      var g := LinkedTo(env, payload.qrToken);
      if op in db.offline then
        var existing := db.offline[op];
        if existing.hash.Some? && existing.hash.value != payload.hash then [ConflictOffline(op)]
        else if g.Some? && existing.status !in {Processed, Conflicted}
          then ThenProcess(db, env, LinkOffline(op, g.value, u.sessionId), op)
        else []
      else
        var row := UploadRow(u, payload, g);
        if g.Some? then ThenProcess(db, env, InsertOffline(op, row), op) else [InsertOffline(op, row)]
  }

  predicate Waiting(db: Db, eventId: EventId, qrToken: string, registrationOperationId: string, op: OperationId) {
    && op in db.offline && db.offline[op].eventId == eventId && db.offline[op].status in {PendingLink, Linked, Failed}
    && (db.offline[op].qrToken == qrToken || db.offline[op].registrationOperationId == Some(registrationOperationId))
  }

  /** What the query may answer: exactly the waiting operations, once each, earliest scan first, ties in any order. */
  predicate IsWaitingList(db: Db, eventId: EventId, qrToken: string, registrationOperationId: string,
                          order: seq<OperationId>)
  {
    && (forall i :: 0 <= i < |order| ==> Waiting(db, eventId, qrToken, registrationOperationId, order[i]))
    && (forall op :: op in db.offline && Waiting(db, eventId, qrToken, registrationOperationId, op) ==> op in order)
    && (forall i, j :: 0 <= i < j < |order| ==>
          order[i] != order[j] && db.offline[order[i]].scannedAt <= db.offline[order[j]].scannedAt)
  }

  /** One turn of the loop: link, process, and mark FAILED when processing throws. */
  function PlanTurn(db: Db, env: Env, op: OperationId, g: RegistrationId): seq<Write> {
    var link := LinkOffline(op, g, None);
    var processed := PlanProcess(Apply(db, link), env, op);
    [link] + processed.0 + if processed.1 then [FailOffline(op)] else []
  }

  lemma TurnInSteps(db: Db, env: Env, op: OperationId, g: RegistrationId)
    ensures var linked := Apply(db, LinkOffline(op, g, None));
            var (writes, throws) := PlanProcess(linked, env, op);
            var done := ApplyAll(linked, writes);
            ApplyAll(db, PlanTurn(db, env, op, g)) == if throws then Apply(done, FailOffline(op)) else done
  {
    var link := LinkOffline(op, g, None);
    var linked := Apply(db, link);
    var (writes, throws) := PlanProcess(linked, env, op);
    var tail := if throws then [FailOffline(op)] else [];
    assert ([link] + writes + tail)[1..] == writes + tail;
    ApplyAllConcat(linked, writes, tail);
    if throws { assert [FailOffline(op)][1..] == []; }
  }

  function PlanReconcile(db: Db, env: Env, order: seq<OperationId>, g: RegistrationId): seq<Write>
    decreases |order|
  {
    if order == [] then []
    else
      var turn := PlanTurn(db, env, order[0], g);
      turn + PlanReconcile(ApplyAll(db, turn), env, order[1..], g)
  }

  function Reconciled(db: Db, env: Env, order: seq<OperationId>, g: RegistrationId): Db {
    ApplyAll(db, PlanReconcile(db, env, order, g))
  }

  lemma TurnThenRest(db: Db, env: Env, order: seq<OperationId>, g: RegistrationId)
    requires order != []
    ensures Reconciled(db, env, order, g) ==
            Reconciled(ApplyAll(db, PlanTurn(db, env, order[0], g)), env, order[1..], g)
  {
    var turn := PlanTurn(db, env, order[0], g);
    ApplyAllConcat(db, turn, PlanReconcile(ApplyAll(db, turn), env, order[1..], g));
  }

  predicate Answers(db: Db, r: Request) {
    r.Reconcile? ==> IsWaitingList(db, r.eventId, r.qrToken, r.registrationOperationId, r.order)
  }

  function Plan(db: Db, env: Env, r: Request): seq<Write> {
    match r
    case Ingest(scan) => PlanIngest(db, env, scan)
    case IngestFast(scan) => PlanIngestFast(db, scan)
    case ProcessRawScan(op, rowId) => PlanProcessRaw(db, env, op, rowId)
    case IngestOffline(u) => PlanOffline(db, env, u)
    case Reconcile(_, _, _, g, order) => PlanReconcile(db, env, order, g)
  }

  // ----- Every write of a plan is justified when it is sent ------------

  predicate Justified(db: Db, w: Write) {
    && WellFormed(w) && Backed(db, w)
    && (w.LinkOffline? || w.FailOffline? || w.FinishOffline? ==>
        w.operationId in db.offline && db.offline[w.operationId].status != Conflicted)
    && (w.LinkOffline? ==> db.offline[w.operationId].status != Processed)
  }

  predicate AllJustified(db: Db, writes: seq<Write>)
    decreases |writes|
  {
    writes == [] || (Justified(db, writes[0]) && AllJustified(Apply(db, writes[0]), writes[1..]))
  }

  lemma {:induction false} JustifiedConcat(db: Db, a: seq<Write>, b: seq<Write>)
    requires AllJustified(db, a) && AllJustified(ApplyAll(db, a), b)
    ensures AllJustified(db, a + b)
    decreases |a|
  {
    if a == [] { assert a + b == b; }
    else {
      assert (a + b)[1..] == a[1..] + b;
      JustifiedConcat(Apply(db, a[0]), a[1..], b);
    }
  }

  lemma {:induction false} JustifiedPrefix(db: Db, writes: seq<Write>, k: nat)
    requires AllJustified(db, writes) && k <= |writes|
    ensures AllJustified(db, writes[..k])
    decreases |writes|
  {
    if k > 0 {
      assert writes[..k][1..] == writes[1..][..k - 1];
      JustifiedPrefix(Apply(db, writes[0]), writes[1..], k - 1);
    }
  }

  lemma ProcessIsJustified(db: Db, env: Env, op: OperationId)
    requires op in db.offline && db.offline[op].status != Conflicted
    ensures AllJustified(db, PlanProcess(db, env, op).0)
    ensures var after := ApplyAll(db, PlanProcess(db, env, op).0);
            op in after.offline && after.offline[op].status != Conflicted
  {
    var writes := PlanProcess(db, env, op).0;
    if writes != [] {
      var db1 := Apply(db, writes[0]);
      assert ApplyAll(db, writes) == ApplyAll(db1, writes[1..]);
      if |writes| == 2 {
        assert NamesOwnMovement(db1, op, writes[1].rawRowId, writes[1].movementId);
        assert writes[1..] == [writes[1]];
        assert ApplyAll(db1, writes[1..]) == Apply(db1, writes[1]);
      } else {
        assert writes[1..] == [];
      }
    }
  }

  // ----- A request touches only the operations it names ----------------

  function Target(w: Write): OperationId {
    match w
    case InsertRaw(scan, _, _, _, _, _) => scan.operationId
    case InsertProcessed(scan, _) => scan.operationId
    case _ => w.operationId
  }

  predicate OnlyTargets(writes: seq<Write>, op: OperationId) {
    forall i :: 0 <= i < |writes| ==> Target(writes[i]) == op
  }

  /** The rows of one operation are the same in both states. */
  predicate SameRows(a: Db, b: Db, op: OperationId) {
    && Lookup(a.raws, op) == Lookup(b.raws, op) && Lookup(a.offline, op) == Lookup(b.offline, op)
    && MovementOf(a, op) == MovementOf(b, op)
  }

  lemma WriteLeavesOthers(db: Db, w: Write, op: OperationId)
    requires Target(w) != op && OwnRow(db, op, Target(w))
    ensures SameRows(db, Apply(db, w), op)
  {
  }

  /** The raw scan of one operation is neither the next row nor the row of another. */
  predicate OwnRow(db: Db, op: OperationId, other: OperationId) {
    op in db.raws ==> db.raws[op].rowId < db.nextId && (other in db.raws ==> db.raws[other].rowId != db.raws[op].rowId)
  }

  lemma {:induction false} WritesLeaveOthers(db: Db, writes: seq<Write>, target: OperationId, op: OperationId)
    requires Inv(db) && AllJustified(db, writes) && OnlyTargets(writes, target) && target != op
    ensures SameRows(db, ApplyAll(db, writes), op)
    decreases |writes|
  {
    if writes != [] {
      assert Target(writes[0]) == target;
      WriteLeavesOthers(db, writes[0], op);
      ApplyKeepsInv(db, writes[0]);
      assert OnlyTargets(writes[1..], target);
      WritesLeaveOthers(Apply(db, writes[0]), writes[1..], target, op);
    }
  }

  lemma TurnHasOneTarget(db: Db, env: Env, op: OperationId, g: RegistrationId)
    ensures OnlyTargets(PlanTurn(db, env, op, g), op)
  {
  }

  lemma FailureIsJustified(db: Db, op: OperationId, threw: bool)
    requires op in db.offline && db.offline[op].status != Conflicted
    ensures AllJustified(db, if threw then [FailOffline(op)] else [])
  {
    if threw { assert [FailOffline(op)][1..] == []; }
  }

  lemma ThenTail(db: Db, first: Write, writes: seq<Write>, tail: seq<Write>)
    requires Justified(db, first) && AllJustified(Apply(db, first), writes)
             && AllJustified(ApplyAll(Apply(db, first), writes), tail)
    ensures AllJustified(db, [first] + writes + tail)
  {
    JustifiedConcat(Apply(db, first), writes, tail);
    assert ([first] + writes + tail)[1..] == writes + tail;
  }

  lemma TurnIsJustified(db: Db, env: Env, op: OperationId, g: RegistrationId)
    requires Inv(db) && op in db.offline && db.offline[op].status !in {Processed, Conflicted}
    ensures AllJustified(db, PlanTurn(db, env, op, g))
  {
    var link := LinkOffline(op, g, None);
    var db1 := Apply(db, link);
    ApplyKeepsInv(db, link);
    var (writes, threw) := PlanProcess(db1, env, op);
    ProcessIsJustified(db1, env, op);
    FailureIsJustified(ApplyAll(db1, writes), op, threw);
    ThenTail(db, link, writes, if threw then [FailOffline(op)] else []);
  }

  // ----- One request, stopped anywhere ---------------------------------

  /** Once CONFLICTED, an offline operation's row never changes again. */
  ghost predicate ConflictsFrozen(before: Db, after: Db) {
    forall op :: op in before.offline && before.offline[op].status == Conflicted ==>
      op in after.offline && after.offline[op] == before.offline[op]
  }

  lemma {:induction false} JustifiedWritesAreSafe(db: Db, writes: seq<Write>)
    requires Inv(db) && AllJustified(db, writes)
    ensures Inv(ApplyAll(db, writes)) && KeepsMovements(db, ApplyAll(db, writes))
            && ConflictsFrozen(db, ApplyAll(db, writes))
    decreases |writes|
  {
    if writes != [] {
      var next := Apply(db, writes[0]);
      ApplyKeepsInv(db, writes[0]);
      WriteFreezesConflicts(db, writes[0]);
      JustifiedWritesAreSafe(next, writes[1..]);
      SafeConcat(db, next, ApplyAll(db, writes));
    }
  }

  lemma WriteFreezesConflicts(db: Db, w: Write)
    requires Justified(db, w)
    ensures ConflictsFrozen(db, Apply(db, w))
  {
  }

  lemma SafeConcat(a: Db, b: Db, c: Db)
    requires KeepsMovements(a, b) && KeepsMovements(b, c) && ConflictsFrozen(a, b) && ConflictsFrozen(b, c)
    ensures KeepsMovements(a, c) && ConflictsFrozen(a, c)
  {
  }

  lemma {:induction false} ReconcileIsJustified(db: Db, env: Env, order: seq<OperationId>, g: RegistrationId)
    requires Inv(db)
    requires forall i :: 0 <= i < |order| ==>
             order[i] in db.offline && db.offline[order[i]].status !in {Processed, Conflicted}
    requires forall i, j :: 0 <= i < j < |order| ==> order[i] != order[j]
    ensures AllJustified(db, PlanReconcile(db, env, order, g))
    decreases |order|
  {
    if order != [] {
      var turn := PlanTurn(db, env, order[0], g);
      TurnIsJustified(db, env, order[0], g);
      TurnHasOneTarget(db, env, order[0], g);
      JustifiedWritesAreSafe(db, turn);
      var next, rest := ApplyAll(db, turn), order[1..];
      forall i | 0 <= i < |rest|
        ensures rest[i] in next.offline && next.offline[rest[i]].status !in {Processed, Conflicted}
      {
        assert order[0] != order[i + 1];
        WritesLeaveOthers(db, turn, order[0], rest[i]);
        assert Lookup(db.offline, rest[i]) == Some(db.offline[order[i + 1]]);
      }
      ReconcileIsJustified(next, env, rest, g);
      JustifiedConcat(db, turn, PlanReconcile(next, env, rest, g));
    }
  }

  lemma ThenProcessIsJustified(db: Db, env: Env, w: Write, op: OperationId)
    requires Inv(db) && Justified(db, w) && op in Apply(db, w).offline && Apply(db, w).offline[op].status != Conflicted
    ensures AllJustified(db, ThenProcess(db, env, w, op))
  {
    ApplyKeepsInv(db, w);
    ProcessIsJustified(Apply(db, w), env, op);
    assert ThenProcess(db, env, w, op)[1..] == PlanProcess(Apply(db, w), env, op).0;
  }

  lemma ScanIsJustified(db: Db, env: Env, scan: Scan)
    ensures AllJustified(db, PlanScan(db, env, scan))
  {
    var writes := PlanScan(db, env, scan);
    if writes != [] { assert writes[1..] == [] && Justified(db, writes[0]); }
  }

  lemma ProcessRawIsJustified(db: Db, env: Env, op: OperationId, rowId: nat)
    ensures AllJustified(db, PlanProcessRaw(db, env, op, rowId))
  {
    var writes := PlanProcessRaw(db, env, op, rowId);
    assert forall w :: w in writes ==> (w.InsertOffline? || w.UpdateRaw? || w.UpdateProcessed?) && WellFormed(w);
    ReadFreeIsJustified(db, writes);
  }

  lemma {:induction false} ReadFreeIsJustified(db: Db, writes: seq<Write>)
    requires forall w :: w in writes ==> (w.InsertOffline? || w.UpdateRaw? || w.UpdateProcessed?) && WellFormed(w)
    ensures AllJustified(db, writes)
    decreases |writes|
  {
    if writes != [] { ReadFreeIsJustified(Apply(db, writes[0]), writes[1..]); }
  }

  lemma KnownUploadIsJustified(db: Db, env: Env, u: Upload)
    requires Inv(db) && UploadAccepted(env, u) && u.operationId in db.offline
    ensures AllJustified(db, PlanOffline(db, env, u))
  {
    var writes := PlanOffline(db, env, u);
    if |writes| == 1 { assert writes[1..] == []; }
    if writes != [] && writes[0].LinkOffline? { ThenProcessIsJustified(db, env, writes[0], u.operationId); }
  }

  lemma NewUploadIsJustified(db: Db, env: Env, u: Upload)
    requires Inv(db) && UploadAccepted(env, u) && u.operationId !in db.offline
    ensures AllJustified(db, PlanOffline(db, env, u))
  {
    var payload := env.signed[u.signedQr];
    var g := LinkedTo(env, payload.qrToken);
    var w := InsertOffline(u.operationId, UploadRow(u, payload, g));
    if g.Some? { ThenProcessIsJustified(db, env, w, u.operationId); } else { assert [w][1..] == []; }
  }

  lemma OfflineIsJustified(db: Db, env: Env, u: Upload)
    requires Inv(db)
    ensures AllJustified(db, PlanOffline(db, env, u))
  {
    if UploadAccepted(env, u) {
      if u.operationId in db.offline { KnownUploadIsJustified(db, env, u); } else { NewUploadIsJustified(db, env, u); }
    }
  }

  lemma PlanIsJustified(db: Db, env: Env, r: Request)
    requires Inv(db) && Answers(db, r)
    ensures AllJustified(db, Plan(db, env, r))
  {
    match r
    case Ingest(scan) =>
      var writes := PlanIngest(db, env, scan);
      if scan.operationId in db.raws && Retryable(db, scan.operationId) {
        var d := DeleteRaw(scan.operationId);
        ScanIsJustified(Apply(db, d), env, scan);
        assert writes[1..] == PlanScan(Apply(db, d), env, scan);
      } else {
        ScanIsJustified(db, env, scan);
      }
    case IngestFast(scan) =>
      var writes := PlanIngestFast(db, scan);
      if writes != [] { assert writes[1..] == []; }
    case ProcessRawScan(op, rowId) => ProcessRawIsJustified(db, env, op, rowId);
    case IngestOffline(u) => OfflineIsJustified(db, env, u);
    case Reconcile(_, _, _, g, order) => ReconcileIsJustified(db, env, order, g);
  }

  /**
   * A request that stops after its first `stop` writes, with the tables it
   * reads as they were when it came. A reconciliation whose list is not what
   * the query answers is no request at all.
   */
  datatype Step = Step(env: Env, request: Request, stop: nat)

  function Next(db: Db, s: Step): Db {
    if Answers(db, s.request) then ApplyAll(db, Sent(db, s)) else db
  }

  function Sent(db: Db, s: Step): seq<Write> {
    var writes := Plan(db, s.env, s.request);
    if s.stop < |writes| then writes[..s.stop] else writes
  }

  function Run(db: Db, steps: seq<Step>): Db
    decreases |steps|
  {
    if steps == [] then db else Run(Next(db, steps[0]), steps[1..])
  }

  lemma NextIsSafe(db: Db, s: Step)
    requires Inv(db)
    ensures Inv(Next(db, s)) && KeepsMovements(db, Next(db, s)) && ConflictsFrozen(db, Next(db, s))
  {
    if Answers(db, s.request) {
      SentIsJustified(db, s);
      JustifiedWritesAreSafe(db, Sent(db, s));
    }
  }

  lemma SentIsJustified(db: Db, s: Step)
    requires Inv(db) && Answers(db, s.request)
    ensures AllJustified(db, Sent(db, s))
  {
    var writes := Plan(db, s.env, s.request);
    PlanIsJustified(db, s.env, s.request);
    if s.stop < |writes| { JustifiedPrefix(db, writes, s.stop); }
  }

  /**
   * Over any run of the five requests, taken one at a time, repeated at will
   * and stopped between any two writes: no operation's movement is ever lost
   * or changed, a movement id once named stays, and CONFLICTED is terminal.
   */
  lemma {:induction false} ExactlyOnce(db: Db, steps: seq<Step>)
    requires Inv(db)
    ensures Inv(Run(db, steps)) && KeepsMovements(db, Run(db, steps)) && ConflictsFrozen(db, Run(db, steps))
    decreases |steps|
  {
    if steps != [] {
      NextIsSafe(db, steps[0]);
      ExactlyOnce(Next(db, steps[0]), steps[1..]);
      SafeConcat(db, Next(db, steps[0]), Run(db, steps));
    }
  }

  /**
   * An accepted upload of a known operation leaves it CONFLICTED exactly when it
   * was, or when it carries another payload.
   */
  lemma ConflictIffHashDiffers(db: Db, env: Env, u: Upload)
    requires Inv(db) && UploadAccepted(env, u) && u.operationId in db.offline
    ensures var existing := db.offline[u.operationId];
            var after := ApplyAll(db, PlanOffline(db, env, u));
            && u.operationId in after.offline
            && (after.offline[u.operationId].status == Conflicted <==>
                  existing.status == Conflicted
                    || (existing.hash.Some? && existing.hash.value != env.signed[u.signedQr].hash))
  {
    var op, payload := u.operationId, env.signed[u.signedQr];
    var existing, g := db.offline[op], LinkedTo(env, payload.qrToken);
    var writes := PlanOffline(db, env, u);
    if existing.hash.Some? && existing.hash.value != payload.hash {
      OneWrite(db, writes);
    } else if g.Some? && existing.status !in {Processed, Conflicted} {
      var link := LinkOffline(op, g.value, u.sessionId);
      ApplyKeepsInv(db, link);
      ProcessIsJustified(Apply(db, link), env, op);
      assert writes[1..] == PlanProcess(Apply(db, link), env, op).0;
    }
  }

  // ----- How long PROCESSED lasts ----------------------------------------

  /** The write updates the row of this offline operation. */
  predicate Updates(w: Write, op: OperationId) {
    (w.LinkOffline? || w.ConflictOffline? || w.FailOffline? || w.FinishOffline?) && w.operationId == op
  }

  lemma {:induction false} OthersLeaveRow(db: Db, writes: seq<Write>, op: OperationId)
    requires op in db.offline && forall i :: 0 <= i < |writes| ==> !Updates(writes[i], op)
    ensures op in ApplyAll(db, writes).offline && ApplyAll(db, writes).offline[op] == db.offline[op]
    decreases |writes|
  {
    if writes != [] {
      assert !Updates(writes[0], op);
      OthersLeaveRow(Apply(db, writes[0]), writes[1..], op);
    }
  }

  lemma {:induction false} ReconcileTargetsOrder(db: Db, env: Env, order: seq<OperationId>, g: RegistrationId)
    ensures forall i :: 0 <= i < |PlanReconcile(db, env, order, g)| ==>
            Target(PlanReconcile(db, env, order, g)[i]) in order
    decreases |order|
  {
    if order != [] {
      var turn := PlanTurn(db, env, order[0], g);
      TurnHasOneTarget(db, env, order[0], g);
      ReconcileTargetsOrder(ApplyAll(db, turn), env, order[1..], g);
    }
  }

  /** The upload of a stored operation under another payload. */
  predicate MarksConflict(db: Db, env: Env, r: Request, op: OperationId) {
    && op in db.offline && r.IngestOffline? && r.upload.operationId == op && UploadAccepted(env, r.upload)
    && db.offline[op].hash.Some? && db.offline[op].hash.value != env.signed[r.upload.signedQr].hash
  }

  lemma OnlyConflictUpdates(db: Db, env: Env, r: Request, op: OperationId)
    requires op in db.offline && db.offline[op].status == Processed && Answers(db, r) && !MarksConflict(db, env, r, op)
    ensures forall i :: 0 <= i < |Plan(db, env, r)| ==> !Updates(Plan(db, env, r)[i], op)
  {
    match r
    case Reconcile(_, _, _, g, order) => ReconcileTargetsOrder(db, env, order, g);
    case IngestOffline(u) => UploadUpdatesItsOwn(db, env, u, op);
    case Ingest(_) =>
    case IngestFast(_) =>
    case ProcessRawScan(row, rowId) => WorkUpdatesNothing(db, env, row, rowId, op);
  }

  lemma UploadUpdatesItsOwn(db: Db, env: Env, u: Upload, op: OperationId)
    requires op in db.offline && db.offline[op].status == Processed && !MarksConflict(db, env, IngestOffline(u), op)
    ensures forall i :: 0 <= i < |PlanOffline(db, env, u)| ==> !Updates(PlanOffline(db, env, u)[i], op)
  {
  }

  lemma WorkUpdatesNothing(db: Db, env: Env, row: OperationId, rowId: nat, op: OperationId)
    ensures forall i :: 0 <= i < |PlanProcessRaw(db, env, row, rowId)| ==>
            !Updates(PlanProcessRaw(db, env, row, rowId)[i], op)
  {
  }

  /**
   * A PROCESSED operation keeps its row through a request, stopped anywhere,
   * exactly when that is not an accepted upload of it under another payload
   * that gets as far as its one write.
   */
  lemma ProcessedStaysIff(db: Db, s: Step, op: OperationId)
    requires Inv(db) && op in db.offline && db.offline[op].status == Processed
    ensures op in Next(db, s).offline
    ensures Next(db, s).offline[op] == db.offline[op] <==> !(MarksConflict(db, s.env, s.request, op) && s.stop >= 1)
  {
    var plan := Plan(db, s.env, s.request);
    if Answers(db, s.request) {
      if MarksConflict(db, s.env, s.request, op) {
        assert plan == [ConflictOffline(op)];
        OneWrite(db, plan);
      } else {
        OnlyConflictUpdates(db, s.env, s.request, op);
        forall i | 0 <= i < |Sent(db, s)| ensures !Updates(Sent(db, s)[i], op) { assert Sent(db, s)[i] == plan[i]; }
        OthersLeaveRow(db, Sent(db, s), op);
      }
    }
  }

  // ----- Progress --------------------------------------------------------

  /** A replay that finds the movement written only names it. */
  lemma FoundMovementIsNamed(db: Db, env: Env, op: OperationId)
    requires op in db.offline && db.offline[op].status != Processed && MovementOf(db, op).Some?
    ensures var after := ApplyAll(db, PlanProcess(db, env, op).0);
            && after.raws == db.raws && after.movements == db.movements
            && op in after.offline && after.offline[op].status == Processed
            && after.offline[op].movementId == Some(MovementOf(db, op).value.id)
  {
    OneWrite(db, PlanProcess(db, env, op).0);
  }

  /** FAILED although its movement is made and named. */
  predicate FailedWithMovement(db: Db, op: OperationId) {
    && op in db.offline && db.offline[op].status == Failed && MovementOf(db, op).Some?
    && db.offline[op].movementId == Some(MovementOf(db, op).value.id)
  }

  /** A turn that made the movement ends as processing left it, unless the activity update throws. */
  lemma MakingTurnEnds(db: Db, env: Env, op: OperationId, g: RegistrationId)
    requires MakesMovement(Apply(db, LinkOffline(op, g, None)), env, op)
    ensures FailedWithMovement(ApplyAll(db, PlanTurn(db, env, op, g)), op) <==> op in env.untouched
  {
    var linked := Apply(db, LinkOffline(op, g, None));
    TurnInSteps(db, env, op, g);
    ReplayProcesses(linked, env, op);
    assert PlanProcess(linked, env, op).1 == (op in env.untouched);
    FailingKeepsMovement(ApplyAll(linked, PlanProcess(linked, env, op).0), op);
  }

  lemma FailingKeepsMovement(done: Db, op: OperationId)
    requires op in done.offline
    ensures var failed := Apply(done, FailOffline(op));
            && MovementOf(failed, op) == MovementOf(done, op) && op in failed.offline
            && failed.offline[op] == done.offline[op].(status := Failed)
  {
  }

  lemma LinkingKeepsMovement(db: Db, op: OperationId, g: RegistrationId)
    requires op in db.offline
    ensures var linked := Apply(db, LinkOffline(op, g, None));
            && op in linked.offline && linked.offline[op].status == Linked
            && MovementOf(linked, op) == MovementOf(db, op)
  {
  }

  lemma QuietTurnEnds(db: Db, env: Env, op: OperationId, g: RegistrationId)
    requires !PlanProcess(Apply(db, LinkOffline(op, g, None)), env, op).1
    ensures var linked := Apply(db, LinkOffline(op, g, None));
            ApplyAll(db, PlanTurn(db, env, op, g)) == ApplyAll(linked, PlanProcess(linked, env, op).0)
  {
    TurnInSteps(db, env, op, g);
  }

  lemma NamingThrowsNothing(db: Db, env: Env, op: OperationId)
    requires op in db.offline && db.offline[op].status != Processed && MovementOf(db, op).Some?
    ensures !PlanProcess(db, env, op).1
  {
  }

  /** A turn that finds the movement written names it. */
  lemma NamingTurnEnds(db: Db, env: Env, op: OperationId, g: RegistrationId)
    requires op in db.offline && MovementOf(db, op).Some?
    ensures !FailedWithMovement(ApplyAll(db, PlanTurn(db, env, op, g)), op)
  {
    var linked := Apply(db, LinkOffline(op, g, None));
    LinkingKeepsMovement(db, op, g);
    NamingThrowsNothing(linked, env, op);
    QuietTurnEnds(db, env, op, g);
    FoundMovementIsNamed(linked, env, op);
  }

  /** A turn without a movement makes none. */
  lemma IdleTurnEnds(db: Db, env: Env, op: OperationId, g: RegistrationId)
    requires op in db.offline && MovementOf(db, op).None?
    requires !MakesMovement(Apply(db, LinkOffline(op, g, None)), env, op)
    ensures !FailedWithMovement(ApplyAll(db, PlanTurn(db, env, op, g)), op)
  {
    TurnInSteps(db, env, op, g);
    var linked := Apply(db, LinkOffline(op, g, None));
    assert PlanProcess(linked, env, op).0 == [];
    FailingKeepsMovement(linked, op);
  }

  /**
   * A turn of a reconciliation takes PROCESSED away again exactly when it made
   * the movement and the activity update after it throws. A later replay finds
   * the movement and marks the operation PROCESSED.
   */
  lemma ProcessedFailsAgainIff(db: Db, env: Env, op: OperationId, g: RegistrationId)
    requires op in db.offline && db.offline[op].status !in {Processed, Conflicted}
    ensures var failed := ApplyAll(db, PlanTurn(db, env, op, g));
            && (FailedWithMovement(failed, op) <==>
                MakesMovement(Apply(db, LinkOffline(op, g, None)), env, op) && op in env.untouched)
            && (FailedWithMovement(failed, op) ==> forall later :: RestoresProcessed(failed, later, op))
  {
    var linked, failed := Apply(db, LinkOffline(op, g, None)), ApplyAll(db, PlanTurn(db, env, op, g));
    assert MovementOf(linked, op) == MovementOf(db, op);
    if MakesMovement(linked, env, op) { MakingTurnEnds(db, env, op, g); }
    else if MovementOf(db, op).Some? { NamingTurnEnds(db, env, op, g); }
    else { IdleTurnEnds(db, env, op, g); }
    if FailedWithMovement(failed, op) {
      forall later ensures RestoresProcessed(failed, later, op) { FoundMovementIsNamed(failed, later, op); }
    }
  }

  predicate RestoresProcessed(db: Db, env: Env, op: OperationId) {
    var after := ApplyAll(db, PlanProcess(db, env, op).0);
    && after.movements == db.movements && op in after.offline && after.offline[op].status == Processed
    && MovementOf(db, op).Some? && after.offline[op].movementId == Some(MovementOf(db, op).value.id)
  }

  lemma NoMovementNoId(db: Db, op: OperationId)
    requires OfflineInv(db) && op in db.offline && MovementOf(db, op).None?
    ensures db.offline[op].movementId.None? && db.offline[op].status != Processed
  {
  }

  /**
   * A replay that gets past every check ends PROCESSED, under the canonical
   * registration, naming the movement it made.
   */
  lemma ReplayProcesses(db: Db, env: Env, op: OperationId)
    requires MakesMovement(db, env, op)
    ensures var after := ApplyAll(db, PlanProcess(db, env, op).0);
            && MovementOf(after, op).Some? && op in after.offline && after.offline[op].status == Processed
            && after.offline[op].movementId == Some(MovementOf(after, op).value.id)
            && after.offline[op].registrationId == Some(MovementOf(after, op).value.registrationId)
            && MovementOf(after, op).value.registrationId == ContextOf(env, db.offline[op]).token.registrationId
            && exists m, t :: LinksScan(env, db.offline[op], m) && CanonicalFor(env, m, t)
                 && t.registrationId == MovementOf(after, op).value.registrationId
                 && t.rowId == MovementOf(after, op).value.qrTokenId
  {
    ContextIs(env, db.offline[op]);
    var o := db.offline[op];
    var d := ReplayDecision(db, env, o);
    if op in db.raws {
      TwoWrites(db, UpdateProcessed(op, d), FinishOffline(op, Some(d.registrationId), db.raws[op].rowId, db.nextId));
    } else {
      TwoWrites(db, InsertProcessed(ScanOf(op, o), d),
                FinishOffline(op, Some(d.registrationId), db.nextId, db.nextId + 1));
    }
    var made := Apply(db, PlanProcess(db, env, op).0[0]);
    MovementIsMade(db, env, op);
    FinishNames(made, op, d.registrationId);
  }

  /** The transaction of a replay leaves a movement under the canonical registration, and the row to be finished. */
  lemma MovementIsMade(db: Db, env: Env, op: OperationId)
    requires MakesMovement(db, env, op)
    ensures var (writes, d) := (PlanProcess(db, env, op).0, ReplayDecision(db, env, db.offline[op]));
            && |writes| == 2
            && var made := Apply(db, writes[0]);
               && made.offline == db.offline && MovementOf(made, op).Some?
               && MovementOf(made, op).value.registrationId == d.registrationId
               && MovementOf(made, op).value.qrTokenId == d.qrTokenId
               && writes[1] == FinishOffline(op, Some(d.registrationId), made.raws[op].rowId,
                                             MovementOf(made, op).value.id)
  {
  }

  lemma FinishNames(made: Db, op: OperationId, g: RegistrationId)
    requires op in made.offline && MovementOf(made, op).Some?
    ensures var m := MovementOf(made, op).value;
            var after := Apply(made, FinishOffline(op, Some(g), made.raws[op].rowId, m.id));
            && MovementOf(after, op) == Some(m) && op in after.offline && after.offline[op].status == Processed
            && after.offline[op].movementId == Some(m.id) && after.offline[op].registrationId == Some(g)
  {
  }

  lemma TwoWrites(db: Db, v: Write, w: Write)
    ensures ApplyAll(db, [v, w]) == Apply(Apply(db, v), w)
  {
    assert [v, w] == [v] + [w];
    ApplyAllConcat(db, [v], [w]);
    OneWrite(db, [v]);
    OneWrite(Apply(db, v), [w]);
  }

  /**
   * A replay that stopped after its movement was written is finished by the
   * next one, which names the same movement and makes no other.
   */
  lemma StoppedReplayIsFinished(db: Db, env: Env, later: Env, op: OperationId)
    requires Inv(db) && MakesMovement(db, env, op)
    ensures |PlanProcess(db, env, op).0| == 2
    ensures var stopped := Apply(db, PlanProcess(db, env, op).0[0]);
            var after := ApplyAll(stopped, PlanProcess(stopped, later, op).0);
            && MovementOf(stopped, op).Some? && MovementOf(after, op) == MovementOf(stopped, op)
            && after.movements == stopped.movements
            && op in after.offline && after.offline[op].status == Processed
            && after.offline[op].movementId == Some(MovementOf(stopped, op).value.id)
  {
    var stopped := Apply(db, PlanProcess(db, env, op).0[0]);
    NoMovementNoId(db, op);
    assert MovementOf(stopped, op).Some? && stopped.offline == db.offline;
    FoundMovementIsNamed(stopped, later, op);
  }
}
