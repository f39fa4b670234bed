/**
 * The tables behind scan ingestion, the writes the service performs on them,
 * and the read-only tables that decide what a scanned code means.
 */
module ScanTables {
  import opened Wrappers
  import opened Text

  type OperationId = nat
  type EventId = nat
  type RegistrationId = nat

  datatype MovementKind = Entry | Exit | Checkpoint | BoothVisit | SessionAttendance | VipAccess

  datatype MovementResult = Allowed | Denied | Warning

  // ----- Written tables ------------------------------------------------

  datatype Scan = Scan(operationId: OperationId, eventId: EventId, deviceId: nat, sessionId: Option<nat>,
                       checkpointId: Option<nat>, qr: string, kind: MovementKind, scannedAt: nat,
                       localResult: Option<string>)

  datatype RawStatus = RawPending | RawProcessed | RawFailed | RawInvalid

  datatype RawScan = RawScan(rowId: nat, scan: Scan, status: RawStatus, result: Option<MovementResult>, reason: string,
                             registrationId: Option<RegistrationId>, qrTokenId: Option<nat>)

  datatype Movement = Movement(id: nat, eventId: EventId, registrationId: RegistrationId, qrTokenId: nat, deviceId: nat,
                               sessionId: Option<nat>, checkpointId: Option<nat>, kind: MovementKind,
                               result: MovementResult, reason: string, occurredAt: nat)

  datatype OfflineStatus = PendingLink | Linked | Processed | Conflicted | Failed

  datatype OfflineScan = OfflineScan(eventId: EventId, deviceId: nat, sessionId: Option<nat>, checkpointId: nat,
                                     qrToken: string, registrationOperationId: Option<string>, hash: Option<string>,
                                     scannedAt: nat, kind: MovementKind, localResult: Option<string>,
                                     status: OfflineStatus, registrationId: Option<RegistrationId>,
                                     movementId: Option<nat>, rawRowId: Option<nat>)

  /** Unique keys are the map keys: raw and offline scans by operation id, movements by the raw scan they belong to. */
  datatype Db = Db(raws: map<OperationId, RawScan>, movements: map<nat, Movement>,
                   offline: map<OperationId, OfflineScan>, nextId: nat)

  /** Who was recognised and what was decided. */
  datatype Decision = Decision(registrationId: RegistrationId, qrTokenId: nat, result: MovementResult, reason: string)

  datatype Write =
    | InsertRaw(scan: Scan, status: RawStatus, result: Option<MovementResult>, reason: string,
                registrationId: Option<RegistrationId>, qrTokenId: Option<nat>)
    | DeleteRaw(operationId: OperationId)
    | UpdateRaw(operationId: OperationId, status: RawStatus, result: Option<MovementResult>, reason: string,
                registrationId: Option<RegistrationId>, qrTokenId: Option<nat>)
    | InsertProcessed(scan: Scan, decision: Decision)                             // transaction
    | UpdateProcessed(operationId: OperationId, decision: Decision)               // transaction
    | InsertOffline(operationId: OperationId, row: OfflineScan)
    | LinkOffline(operationId: OperationId, linkedTo: RegistrationId, sessionId: Option<nat>)
    | ConflictOffline(operationId: OperationId)
    | FailOffline(operationId: OperationId)
    | FinishOffline(operationId: OperationId, registrationId: Option<RegistrationId>, rawRowId: nat, movementId: nat)

  function MovementFor(id: nat, scan: Scan, d: Decision): Movement {
    Movement(id, scan.eventId, d.registrationId, d.qrTokenId, scan.deviceId, scan.sessionId, scan.checkpointId,
             scan.kind, d.result, d.reason, scan.scannedAt)
  }

  /** A write that a unique key, a missing row or a foreign key refuses leaves the tables as they were. */
  function Apply(db: Db, w: Write): Db {
    match w
    case InsertRaw(scan, status, result, reason, registrationId, qrTokenId) =>
      if scan.operationId in db.raws then db
      else db.(raws :=
               db.raws[scan.operationId := RawScan(db.nextId, scan, status, result, reason, registrationId, qrTokenId)],
               nextId := db.nextId + 1)
    case DeleteRaw(op) =>
      if op !in db.raws || db.raws[op].rowId in db.movements then db else db.(raws := db.raws - {op})
    case UpdateRaw(op, status, result, reason, registrationId, qrTokenId) =>
      if op !in db.raws then db
      else
        var raw := db.raws[op];
        db.(raws := db.raws[op := raw.(status := status, result := result, reason := reason,
              registrationId := if registrationId.Some? then registrationId else raw.registrationId,
              qrTokenId := if qrTokenId.Some? then qrTokenId else raw.qrTokenId)])
    case InsertProcessed(scan, d) =>
      if scan.operationId in db.raws then db
      else Db(db.raws[scan.operationId := RawScan(db.nextId, scan, RawProcessed, Some(d.result), d.reason,
                                                  Some(d.registrationId), Some(d.qrTokenId))],
              db.movements[db.nextId := MovementFor(db.nextId + 1, scan, d)], db.offline, db.nextId + 2)
    case UpdateProcessed(op, d) =>
      if op !in db.raws || db.raws[op].rowId in db.movements then db
      else
        var raw := db.raws[op];
        Db(db.raws[op := raw.(status := RawProcessed, result := Some(d.result), reason := d.reason,
                              registrationId := Some(d.registrationId), qrTokenId := Some(d.qrTokenId))],
           db.movements[raw.rowId := MovementFor(db.nextId, raw.scan, d)], db.offline, db.nextId + 1)
    case InsertOffline(op, row) =>
      if op in db.offline then db else db.(offline := db.offline[op := row])
    case LinkOffline(op, g, sessionId) =>
      if op !in db.offline then db
      else db.(offline := db.offline[op := db.offline[op].(status := Linked, registrationId := Some(g),
                                 sessionId := if sessionId.Some? then sessionId else db.offline[op].sessionId)])
    case ConflictOffline(op) =>
      if op !in db.offline then db else db.(offline := db.offline[op := db.offline[op].(status := Conflicted)])
    case FailOffline(op) =>
      if op !in db.offline then db else db.(offline := db.offline[op := db.offline[op].(status := Failed)])
    case FinishOffline(op, g, rawRowId, movementId) =>
      if op !in db.offline then db
      else db.(offline := db.offline[op := db.offline[op].(status := Processed, registrationId := g,
                                 rawRowId := Some(rawRowId), movementId := Some(movementId))])
  }

  function ApplyAll(db: Db, writes: seq<Write>): Db
    decreases |writes|
  {
    if writes == [] then db else ApplyAll(Apply(db, writes[0]), writes[1..])
  }

  lemma {:induction false} ApplyAllConcat(db: Db, a: seq<Write>, b: seq<Write>)
    ensures ApplyAll(db, a + b) == ApplyAll(ApplyAll(db, a), b)
    decreases |a|
  {
    if a == [] { assert a + b == b; }
    else {
      assert (a + b)[1..] == a[1..] + b;
      ApplyAllConcat(Apply(db, a[0]), a[1..], b);
    }
  }

  lemma OneWrite(db: Db, writes: seq<Write>)
    ensures |writes| == 1 ==> ApplyAll(db, writes) == Apply(db, writes[0])
  {
    if |writes| == 1 { assert writes[1..] == []; }
  }

  function MovementOf(db: Db, op: OperationId): Option<Movement> {
    if op in db.raws && db.raws[op].rowId in db.movements then Some(db.movements[db.raws[op].rowId]) else None
  }

  // ----- Read-only tables ----------------------------------------------

  datatype Event = Event(archived: bool, allowReEntry: bool)
  datatype Device = Device(eventId: EventId, active: bool)
  datatype Session = Session(eventId: EventId, deviceId: nat, checkpointId: nat, active: bool)
  datatype Gate = Gate(eventId: EventId, active: bool, allowedTypes: Option<seq<string>>)
  datatype Attendee = Attendee(active: bool, typeId: nat, typeCode: string)

  datatype TokenStatus = TokenActive | TokenRevoked | TokenExpired

  datatype QrToken = QrToken(rowId: nat, tokenId: string, eventId: EventId, registrationId: RegistrationId,
                             status: TokenStatus, validFrom: nat, validUntil: nat)

  datatype MappingStatus = MappingPending | Synced | MatchedExisting | MappingConflicted | MappingRevoked

  datatype Mapping = Mapping(qrToken: string, eventId: EventId, registrationOperationId: string,
                             registrationId: Option<RegistrationId>, canonicalTokenRow: Option<nat>,
                             status: MappingStatus)

  datatype FullPayload = FullPayload(tokenId: string, eventId: EventId, registrationId: RegistrationId)

  datatype SignedOffline = SignedOffline(eventId: EventId, typeId: nat, qrToken: string,
                                         registrationOperationId: string, hash: string)

  /**
   * What a request reads but never writes. The three verifiers are tables from
   * a code to the payload they accept; a code that is absent is rejected.
   * `untouched` holds the operations whose last update, of the activity columns, fails.
   */
  datatype Env = Env(events: map<EventId, Event>, devices: map<nat, Device>, sessions: map<nat, Session>,
                     gates: map<nat, Gate>, attendees: map<RegistrationId, Attendee>, tokens: seq<QrToken>,
                     mappings: seq<Mapping>, full: map<string, FullPayload>, compact: map<string, string>,
                     signed: map<string, SignedOffline>, now: nat, untouched: set<OperationId>)

  // ----- What a scanned code means -------------------------------------

  datatype Verdict =
    | Valid(qrTokenId: nat, registrationId: RegistrationId, typeCode: string)
    | Invalid(reason: string, qrTokenRow: Option<nat>, holder: Option<RegistrationId>)
    | PendingReference(qrToken: string, linkedTo: Option<RegistrationId>)
    | PendingSigned(payload: SignedOffline)

  function FindToken(tokens: seq<QrToken>, tokenId: string): Option<QrToken> {
    if tokens == [] then None
    else if tokens[0].tokenId == tokenId then Some(tokens[0])
    else FindToken(tokens[1..], tokenId)
  }

  /** The canonical token of a mapping: by registration, and by row when the mapping names one. */
  function FindCanonical(tokens: seq<QrToken>, g: RegistrationId, row: Option<nat>, onlyActive: bool): Option<QrToken> {
    if tokens == [] then None
    else if tokens[0].registrationId == g && (row.Some? ==> tokens[0].rowId == row.value)
      && (onlyActive ==> tokens[0].status == TokenActive)
    then Some(tokens[0])
    else FindCanonical(tokens[1..], g, row, onlyActive)
  }

  function FindMapping(mappings: seq<Mapping>, qrToken: string): Option<Mapping> {
    if mappings == [] then None
    else if mappings[0].qrToken == qrToken then Some(mappings[0])
    else FindMapping(mappings[1..], qrToken)
  }

  /** The checks every route ends with, in the order the code makes them. */
  function Judge(env: Env, t: QrToken, mismatch: bool): Verdict {
    var found, holder := Some(t.rowId), Some(t.registrationId);
    if mismatch then Invalid("EVENT_MISMATCH", found, holder)
    else if t.status == TokenRevoked then Invalid("TOKEN_REVOKED", found, holder)
    else if t.status == TokenExpired || env.now < t.validFrom || env.now > t.validUntil
      then Invalid("TOKEN_EXPIRED", found, holder)
    else if t.registrationId !in env.attendees || !env.attendees[t.registrationId].active
    then Invalid("REGISTRATION_INACTIVE", found, holder)
    else Valid(t.rowId, t.registrationId, env.attendees[t.registrationId].typeCode)
  }

  function ValidateReference(env: Env, qr: string, e: EventId): Verdict {
    match FindMapping(env.mappings, qr)
    case None => PendingReference(qr, None)
    case Some(m) =>
      if m.eventId != e then Invalid("EVENT_MISMATCH", None, m.registrationId)
      else if m.registrationId.None? || m.status == MappingPending then PendingReference(qr, m.registrationId)
      else if m.status == MappingConflicted then Invalid("OFFLINE_QR_CONFLICTED", None, m.registrationId)
      else if m.status == MappingRevoked then Invalid("TOKEN_REVOKED", None, m.registrationId)
      else match FindCanonical(env.tokens, m.registrationId.value, m.canonicalTokenRow, false)
        case None => Invalid("TOKEN_NOT_FOUND", None, m.registrationId)
        case Some(t) => Judge(env, t, t.eventId != e)
  }

  function ValidateSigned(env: Env, payload: SignedOffline, e: EventId): Verdict {
    match FindMapping(env.mappings, payload.qrToken)
    case None => PendingSigned(payload)
    case Some(m) =>
      if m.registrationId.None? || m.status in {MappingPending, MappingConflicted, MappingRevoked}
        then PendingSigned(payload)
      else match FindCanonical(env.tokens, m.registrationId.value, m.canonicalTokenRow, false)
        case None => Invalid("TOKEN_NOT_FOUND", None, m.registrationId)
        case Some(t) =>
          Judge(env, t, t.eventId != e || t.registrationId !in env.attendees
                || payload.typeId != env.attendees[t.registrationId].typeId)
  }

  function ValidateToken(env: Env, tokenId: string, claimed: Option<FullPayload>, e: EventId): Verdict {
    match FindToken(env.tokens, tokenId)
    case None => Invalid("TOKEN_NOT_FOUND", None, None)
    case Some(t) =>
      Judge(env, t, t.eventId != e
            || (claimed.Some? && (claimed.value.eventId != e || claimed.value.registrationId != t.registrationId)))
  }

  /** validateQrForScan: offline reference, full token, compact token, signed offline token, in that order. */
  function ValidateQr(env: Env, qrRaw: string, e: EventId): Verdict {
    var qr := Trim(qrRaw);
    if qr == "" then Invalid("INVALID_SIGNATURE", None, None)
    else if "O2." <= qr then ValidateReference(env, qr, e)
    else if qr in env.full then ValidateToken(env, env.full[qr].tokenId, Some(env.full[qr]), e)
    else if qr in env.compact then ValidateToken(env, env.compact[qr], None, e)
    else if qr in env.signed && env.signed[qr].eventId == e then ValidateSigned(env, env.signed[qr], e)
    else Invalid("INVALID_SIGNATURE", None, None)
  }

  predicate Usable(env: Env, t: QrToken, e: EventId) {
    && t.eventId == e && t.status == TokenActive && t.validFrom <= env.now <= t.validUntil
    && t.registrationId in env.attendees && env.attendees[t.registrationId].active
  }

  lemma {:induction false} FindTokenFinds(tokens: seq<QrToken>, id: string)
    ensures FindToken(tokens, id).Some? ==>
            FindToken(tokens, id).value in tokens && FindToken(tokens, id).value.tokenId == id
  {
    if tokens != [] { FindTokenFinds(tokens[1..], id); }
  }

  lemma {:induction false} FindCanonicalFinds(tokens: seq<QrToken>, g: RegistrationId, row: Option<nat>,
                                              onlyActive: bool)
    ensures FindCanonical(tokens, g, row, onlyActive).Some? ==>
              var t := FindCanonical(tokens, g, row, onlyActive).value;
              t in tokens && t.registrationId == g && (row.Some? ==> t.rowId == row.value)
                && (onlyActive ==> t.status == TokenActive)
  {
    if tokens != [] { FindCanonicalFinds(tokens[1..], g, row, onlyActive); }
  }

  /** Whatever the route, a code is only ever accepted on a usable token of the scanned event. */
  lemma AcceptedOnlyWhenUsable(env: Env, qrRaw: string, e: EventId)
    requires ValidateQr(env, qrRaw, e).Valid?
    ensures var v := ValidateQr(env, qrRaw, e);
            exists t :: t in env.tokens && Usable(env, t, e) && t.rowId == v.qrTokenId
              && t.registrationId == v.registrationId
  {
    var qr := Trim(qrRaw);
    if "O2." <= qr || (qr !in env.full && qr !in env.compact) {
      var code := if "O2." <= qr then qr else env.signed[qr].qrToken;
      var m := FindMapping(env.mappings, code).value;
      FindCanonicalFinds(env.tokens, m.registrationId.value, m.canonicalTokenRow, false);
      var token := FindCanonical(env.tokens, m.registrationId.value, m.canonicalTokenRow, false);
      assert Usable(env, token.value, e);
    } else {
      var id := if qr in env.full then env.full[qr].tokenId else env.compact[qr];
      FindTokenFinds(env.tokens, id);
      assert Usable(env, FindToken(env.tokens, id).value, e);
    }
  }

  /** How a code is read: the first of the formats it has. */
  datatype Format = Reference | Full | Compact | Signed | Unreadable

  function FormatOf(env: Env, qr: string): Format {
    if "O2." <= qr then Reference
    else if qr == "" then Unreadable
    else if qr in env.full then Full
    else if qr in env.compact then Compact
    else if qr in env.signed then Signed
    else Unreadable
  }

  /** A synced mapping leads from its code to the token of its registration. */
  predicate Links(m: Mapping, code: string, t: QrToken) {
    && m.qrToken == code && m.status in {Synced, MatchedExisting} && m.registrationId == Some(t.registrationId)
    && (m.canonicalTokenRow.Some? ==> m.canonicalTokenRow.value == t.rowId)
  }

  /** What it means for a code to stand for a token at an event. */
  ghost predicate Denotes(env: Env, qr: string, e: EventId, t: QrToken) {
    && t in env.tokens
    && match FormatOf(env, qr)
       case Full => env.full[qr] == FullPayload(t.tokenId, e, t.registrationId)
       case Compact => env.compact[qr] == t.tokenId
       case Reference => exists m :: m in env.mappings && m.eventId == e && Links(m, qr, t)
       case Signed =>
         && env.signed[qr].eventId == e
         && t.registrationId in env.attendees && env.attendees[t.registrationId].typeId == env.signed[qr].typeId
         && exists m :: m in env.mappings && Links(m, env.signed[qr].qrToken, t)
       case Unreadable => false
  }

  /** The unique indexes of the tables that are read. */
  ghost predicate UniqueKeys(env: Env) {
    && (forall t, u ::
        t in env.tokens && u in env.tokens && (t.tokenId == u.tokenId || t.registrationId == u.registrationId) ==>
        t == u)
    && (forall m, n :: m in env.mappings && n in env.mappings && m.qrToken == n.qrToken ==> m == n)
  }

  lemma {:induction false} FindTokenIs(tokens: seq<QrToken>, t: QrToken)
    requires t in tokens && forall u :: u in tokens && u.tokenId == t.tokenId ==> u == t
    ensures FindToken(tokens, t.tokenId) == Some(t)
  {
    if tokens[0].tokenId != t.tokenId { FindTokenIs(tokens[1..], t); }
  }

  lemma {:induction false} FindCanonicalIs(tokens: seq<QrToken>, t: QrToken, row: Option<nat>)
    requires t in tokens && (row.Some? ==> row.value == t.rowId)
    requires forall u :: u in tokens && u.registrationId == t.registrationId ==> u == t
    ensures FindCanonical(tokens, t.registrationId, row, false) == Some(t)
  {
    if tokens[0].registrationId != t.registrationId { FindCanonicalIs(tokens[1..], t, row); }
  }

  lemma {:induction false} FindMappingIs(mappings: seq<Mapping>, code: string)
    ensures match FindMapping(mappings, code)
            case Some(m) => m in mappings && m.qrToken == code
            case None => forall m :: m in mappings ==> m.qrToken != code
  {
    if mappings != [] { FindMappingIs(mappings[1..], code); }
  }

  /** A token a code denotes decides about the code: it is accepted as that token exactly while the token is usable. */
  lemma DenotedTokenDecides(env: Env, qr: string, e: EventId, t: QrToken)
    requires UniqueKeys(env) && Denotes(env, qr, e, t) && Trim(qr) == qr
    ensures ValidateQr(env, qr, e).Valid? <==> Usable(env, t, e)
    ensures Usable(env, t, e) ==>
            ValidateQr(env, qr, e) == Valid(t.rowId, t.registrationId, env.attendees[t.registrationId].typeCode)
  {
    match FormatOf(env, qr)
    case Full => FindTokenIs(env.tokens, t);
    case Compact => FindTokenIs(env.tokens, t);
    case Reference => LinkedTokenIs(env, qr, t);
    case Signed => LinkedTokenIs(env, env.signed[qr].qrToken, t);
    case Unreadable =>
  }

  lemma LinkedTokenIs(env: Env, code: string, t: QrToken)
    requires UniqueKeys(env) && t in env.tokens && exists m :: m in env.mappings && Links(m, code, t)
    ensures var m := FindMapping(env.mappings, code);
            && m.Some? && m.value in env.mappings && Links(m.value, code, t)
            && FindCanonical(env.tokens, t.registrationId, m.value.canonicalTokenRow, false) == Some(t)
  {
    FindMappingIs(env.mappings, code);
    var m := FindMapping(env.mappings, code).value;
    FindCanonicalIs(env.tokens, t, m.canonicalTokenRow);
  }

  /** Whatever is accepted is denoted: nothing passes but a code that stands for a usable token. */
  lemma AcceptedIsDenoted(env: Env, qr: string, e: EventId) returns (t: QrToken)
    requires ValidateQr(env, qr, e).Valid? && Trim(qr) == qr
    ensures Denotes(env, qr, e, t) && Usable(env, t, e)
  {
    match FormatOf(env, qr)
    case Full =>
      FindTokenFinds(env.tokens, env.full[qr].tokenId);
      t := FindToken(env.tokens, env.full[qr].tokenId).value;
    case Compact =>
      FindTokenFinds(env.tokens, env.compact[qr]);
      t := FindToken(env.tokens, env.compact[qr]).value;
    case Reference =>
      t := FoundByLink(env, qr);
      assert Links(FindMapping(env.mappings, qr).value, qr, t);
    case Signed =>
      t := FoundByLink(env, env.signed[qr].qrToken);
      assert Links(FindMapping(env.mappings, env.signed[qr].qrToken).value, env.signed[qr].qrToken, t);
  }

  lemma FoundByLink(env: Env, code: string) returns (t: QrToken)
    requires var m := FindMapping(env.mappings, code);
             && m.Some? && m.value.registrationId.Some?
             && m.value.status !in {MappingPending, MappingConflicted, MappingRevoked}
             && FindCanonical(env.tokens, m.value.registrationId.value, m.value.canonicalTokenRow, false).Some?
    ensures var m := FindMapping(env.mappings, code).value;
            && m in env.mappings && Links(m, code, t) && t in env.tokens
            && t == FindCanonical(env.tokens, m.registrationId.value, m.canonicalTokenRow, false).value
  {
    var m := FindMapping(env.mappings, code).value;
    FindMappingIs(env.mappings, code);
    FindCanonicalFinds(env.tokens, m.registrationId.value, m.canonicalTokenRow, false);
    t := FindCanonical(env.tokens, m.registrationId.value, m.canonicalTokenRow, false).value;
    var s := m.status;
    assert s == MappingPending || s == Synced || s == MatchedExisting || s == MappingConflicted || s == MappingRevoked;
  }

  /**
   * A code is accepted if and only if it stands for a usable token, whatever its
   * format, and then as that token's holder.
   */
  lemma AcceptedIffUsable(env: Env, qrRaw: string, e: EventId)
    requires UniqueKeys(env)
    ensures ValidateQr(env, qrRaw, e).Valid? <==> exists t :: Denotes(env, Trim(qrRaw), e, t) && Usable(env, t, e)
    ensures forall t :: Denotes(env, Trim(qrRaw), e, t) && Usable(env, t, e) ==>
              ValidateQr(env, qrRaw, e) == Valid(t.rowId, t.registrationId, env.attendees[t.registrationId].typeCode)
  {
    var qr := Trim(qrRaw);
    TrimIsIdempotent(qrRaw);
    assert ValidateQr(env, qrRaw, e) == ValidateQr(env, qr, e);
    if ValidateQr(env, qr, e).Valid? {
      var t := AcceptedIsDenoted(env, qr, e);
    }
    forall t | Denotes(env, qr, e, t) && Usable(env, t, e)
      ensures ValidateQr(env, qr, e) == Valid(t.rowId, t.registrationId, env.attendees[t.registrationId].typeCode)
    {
      DenotedTokenDecides(env, qr, e, t);
    }
  }

  function DenialReason(reason: string): string {
    match reason
    case "INVALID_SIGNATURE" => "INVALID_QR"
    case "TOKEN_NOT_FOUND" => "INVALID_QR"
    case "OFFLINE_QR_NOT_SYNCED" => "OFFLINE_REGISTRATION_NOT_SYNCED"
    case "OFFLINE_QR_CONFLICTED" => "INVALID_QR"
    case "EVENT_MISMATCH" => "WRONG_EVENT"
    case "TOKEN_REVOKED" => "QR_REVOKED"
    case "TOKEN_EXPIRED" => "QR_EXPIRED"
    case _ => reason
  }

  // ----- The checks around a scan --------------------------------------

  predicate EventOpen(env: Env, e: EventId) { e in env.events && !env.events[e].archived }

  predicate DeviceReady(env: Env, id: nat, e: EventId) { id in env.devices && env.devices[id] == Device(e, true) }

  predicate SessionReady(env: Env, id: Option<nat>, e: EventId) {
    id.Some? ==> id.value in env.sessions && env.sessions[id.value].eventId == e && env.sessions[id.value].active
  }

  /** A replayed offline scan may name a session that has ended or is gone, but not one of another place. */
  predicate SessionFits(env: Env, id: Option<nat>, e: EventId, deviceId: nat, checkpointId: nat) {
    id.Some? && id.value in env.sessions ==>
      var s := env.sessions[id.value];
      s.eventId == e && s.deviceId == deviceId && s.checkpointId == checkpointId
  }

  predicate GateReady(env: Env, id: Option<nat>, e: EventId) {
    id.Some? ==> id.value in env.gates && env.gates[id.value].eventId == e && env.gates[id.value].active
  }

  predicate Admits(env: Env, gateId: Option<nat>, typeCode: string) {
    gateId.Some? && gateId.value in env.gates && env.gates[gateId.value].allowedTypes.Some? ==>
      var allowed := env.gates[gateId.value].allowedTypes.value;
      allowed == [] || typeCode in allowed
  }

  predicate IsEntry(m: Movement, e: EventId, g: RegistrationId) {
    m.eventId == e && m.registrationId == g && m.kind == Entry && m.result == Allowed
  }

  predicate HasEntered(db: Db, e: EventId, g: RegistrationId) {
    exists row :: row in db.movements && IsEntry(db.movements[row], e, g)
  }

  /** Access first, then re-entry. */
  function Decide(db: Db, env: Env, e: EventId, g: RegistrationId, typeCode: string, gateId: Option<nat>,
                  kind: MovementKind, qrTokenId: nat): Decision
    requires e in env.events
  {
    if !Admits(env, gateId, typeCode) then Decision(g, qrTokenId, Denied, "ATTENDEE_TYPE_NOT_ALLOWED")
    else if !env.events[e].allowReEntry && kind == Entry && HasEntered(db, e, g)
      then Decision(g, qrTokenId, Denied, "ALREADY_ENTERED")
    else Decision(g, qrTokenId, Allowed, "ALLOWED")
  }

  predicate ChecksPass(env: Env, scan: Scan) {
    && EventOpen(env, scan.eventId) && DeviceReady(env, scan.deviceId, scan.eventId)
    && SessionReady(env, scan.sessionId, scan.eventId) && GateReady(env, scan.checkpointId, scan.eventId)
  }
}
