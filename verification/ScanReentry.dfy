/** The re-entry rule: where re-entry is not allowed, nobody enters twice. */
module ScanReentry {
  import opened Wrappers
  import opened ScanTables
  import opened ScanInvariants
  import opened ScanRequests

  ghost predicate OneEntry(db: Db, e: EventId, g: RegistrationId) {
    forall a, b ::
      a in db.movements && b in db.movements && IsEntry(db.movements[a], e, g) && IsEntry(db.movements[b], e, g) ==>
      a == b
  }

  predicate NoReentry(env: Env, e: EventId) { e in env.events && !env.events[e].allowReEntry }

  /** What each operation id stands for: its event and its kind of movement. */
  type Meaning = map<OperationId, (EventId, MovementKind)>

  predicate Means(meaning: Meaning, op: OperationId, e: EventId, kind: MovementKind) {
    Lookup(meaning, op) == Some((e, kind))
  }

  ghost predicate Consistent(meaning: Meaning, db: Db) {
    && (forall op :: op in db.raws ==> Means(meaning, op, db.raws[op].scan.eventId, db.raws[op].scan.kind))
    && (forall op :: op in db.offline ==> Means(meaning, op, db.offline[op].eventId, db.offline[op].kind))
  }

  predicate Fits(meaning: Meaning, r: Request) {
    match r
    case Ingest(scan) => Means(meaning, scan.operationId, scan.eventId, scan.kind)
    case IngestFast(scan) => Means(meaning, scan.operationId, scan.eventId, scan.kind)
    case IngestOffline(u) => Means(meaning, u.operationId, u.eventId, u.kind)
    case _ => true
  }

  // ----- When one replay breaks the rule --------------------------------

  lemma NewMovementBreaksRule(db: Db, after: Db, row: nat, m: Movement, e: EventId, g: RegistrationId)
    requires OneEntry(db, e, g) && row !in db.movements && after.movements == db.movements[row := m]
    ensures OneEntry(after, e, g) <==> !(IsEntry(m, e, g) && HasEntered(db, e, g))
  {
    if IsEntry(m, e, g) && HasEntered(db, e, g) {
      var first :| first in db.movements && IsEntry(db.movements[first], e, g);
      assert IsEntry(after.movements[first], e, g) && IsEntry(after.movements[row], e, g);
    }
  }

  /** The movement a replay makes: the raw scan's own when there is one, the offline operation's otherwise. */
  function ReplayMovement(db: Db, env: Env, op: OperationId): Movement
    requires MakesMovement(db, env, op)
  {
    var d := ReplayDecision(db, env, db.offline[op]);
    if op in db.raws then MovementFor(db.nextId, db.raws[op].scan, d)
    else MovementFor(db.nextId + 1, ScanOf(op, db.offline[op]), d)
  }

  lemma ReplayMakes(db: Db, env: Env, op: OperationId)
    requires MakesMovement(db, env, op)
    ensures var replayed := ApplyAll(db, PlanProcess(db, env, op).0);
            && replayed.movements ==
               db.movements[(if op in db.raws then db.raws[op].rowId else db.nextId) := ReplayMovement(db, env, op)]
            && MovementOf(replayed, op) == Some(ReplayMovement(db, env, op))
  {
    var writes := PlanProcess(db, env, op).0;
    MovementIsMade(db, env, op);
    TwoWrites(db, writes[0], writes[1]);
    assert writes == [writes[0], writes[1]];
    TransactionMakes(db, env, op);
    FinishKeepsMovement(Apply(db, writes[0]), writes[1], op);
  }

  lemma TransactionMakes(db: Db, env: Env, op: OperationId)
    requires MakesMovement(db, env, op)
    ensures var made := Apply(db, PlanProcess(db, env, op).0[0]);
            && made.movements ==
               db.movements[(if op in db.raws then db.raws[op].rowId else db.nextId) := ReplayMovement(db, env, op)]
            && MovementOf(made, op) == Some(ReplayMovement(db, env, op))
  {
  }

  lemma FinishKeepsMovement(made: Db, w: Write, op: OperationId)
    requires w.FinishOffline?
    ensures Apply(made, w).movements == made.movements && MovementOf(Apply(made, w), op) == MovementOf(made, op)
  {
  }

  /**
   * A replay decides by the offline operation's event and kind but writes the
   * raw scan's. This one is let in although its holder has entered: the raw
   * scan is an entry, the gate admits, and what the offline operation asks for
   * is not barred.
   */
  predicate BreakingReplay(db: Db, env: Env, op: OperationId, e: EventId, g: RegistrationId) {
    && MakesMovement(db, env, op) && op in db.raws
    && var o, scan, c := db.offline[op], db.raws[op].scan, ContextOf(env, db.offline[op]);
    && c.token.registrationId == g && scan.eventId == e && scan.kind == Entry && HasEntered(db, e, g)
    && Admits(env, Some(o.checkpointId), c.typeCode)
    && !(o.kind == Entry && !env.events[o.eventId].allowReEntry && HasEntered(db, o.eventId, g))
  }

  /** On a raw scan that has no movement yet, a replay breaks the rule exactly in that case. */
  lemma ReplayBreaksRule(db: Db, env: Env, op: OperationId, e: EventId)
    requires Inv(db) && NoReentry(env, e) && MakesMovement(db, env, op) && op in db.raws
    requires OneEntry(db, e, ContextOf(env, db.offline[op]).token.registrationId)
    ensures var g := ContextOf(env, db.offline[op]).token.registrationId;
            !OneEntry(ApplyAll(db, PlanProcess(db, env, op).0), e, g) <==> BreakingReplay(db, env, op, e, g)
  {
    ReplayMakes(db, env, op);
    var replayed := ApplyAll(db, PlanProcess(db, env, op).0);
    var g := ContextOf(env, db.offline[op]).token.registrationId;
    NewMovementBreaksRule(db, replayed, db.raws[op].rowId, ReplayMovement(db, env, op), e, g);
  }

  // ----- What a replay does not ask of the token --------------------------

  lemma LinkedTokenIsActive(env: Env, o: OfflineScan)
    requires ContextOf(env, o).Known?
    ensures ContextOf(env, o).token in env.tokens && ContextOf(env, o).token.status == TokenActive
    ensures ContextOf(env, o).token.registrationId in env.attendees
  {
    var m := FindLinked(env.mappings, o).value;
    FindCanonicalFinds(env.tokens, m.registrationId.value, m.canonicalTokenRow, true);
  }

  /**
   * A replay allows a movement on a token that every online route would refuse
   * exactly when gate and re-entry rule let it pass and the ACTIVE token it is
   * linked to is of another event, outside its window, or its holder's who is
   * no longer ACTIVE.
   */
  lemma ReplayAdmitsUnusableIff(db: Db, env: Env, op: OperationId)
    requires MakesMovement(db, env, op)
    ensures var o, c, m := db.offline[op], ContextOf(env, db.offline[op]), ReplayMovement(db, env, op);
            var t := c.token;
            && t in env.tokens && m.qrTokenId == t.rowId && m.registrationId == t.registrationId
            && t.registrationId in env.attendees
            && (m.result == Allowed && !Usable(env, t, o.eventId) <==>
                && Admits(env, Some(o.checkpointId), c.typeCode)
                && (env.events[o.eventId].allowReEntry || o.kind != Entry
                    || !HasEntered(db, o.eventId, t.registrationId))
                && (t.eventId != o.eventId || !(t.validFrom <= env.now <= t.validUntil)
                    || !env.attendees[t.registrationId].active))
  {
    LinkedTokenIsActive(env, db.offline[op]);
  }

  // ----- When a request breaks the rule ----------------------------------

  predicate AllowedEntry(scan: Scan, d: Decision, e: EventId) {
    scan.eventId == e && scan.kind == Entry && d.result == Allowed
  }

  /**
   * How a movement was decided: by the scan it is written for, or, when replaying
   * onto a raw scan, by the offline operation.
   */
  predicate Decided(db: Db, env: Env, w: Write, e: EventId, replaying: bool) {
    match w
    case InsertProcessed(scan, d) => AllowedEntry(scan, d, e) ==> !HasEntered(db, e, d.registrationId)
    case UpdateProcessed(op, d) =>
      if replaying then MakesMovement(db, env, op) && op in db.raws && d == ReplayDecision(db, env, db.offline[op])
      else op in db.raws && AllowedEntry(db.raws[op].scan, d, e) ==> !HasEntered(db, e, d.registrationId)
    case _ => true
  }

  predicate AllDecided(db: Db, env: Env, writes: seq<Write>, e: EventId, replaying: bool)
    decreases |writes|
  {
    writes == [] || (Decided(db, env, writes[0], e, replaying)
                     && AllDecided(Apply(db, writes[0]), env, writes[1..], e, replaying))
  }

  /** One of the writes is the transaction of a breaking replay. */
  predicate SendsBreaking(db: Db, env: Env, writes: seq<Write>, e: EventId, g: RegistrationId)
    decreases |writes|
  {
    writes != []
    && ((writes[0].UpdateProcessed? && BreakingReplay(db, env, writes[0].operationId, e, g))
        || SendsBreaking(Apply(db, writes[0]), env, writes[1..], e, g))
  }

  lemma EntryIffBreaking(db: Db, env: Env, op: OperationId, id: nat, e: EventId, g: RegistrationId)
    requires MakesMovement(db, env, op) && op in db.raws && NoReentry(env, e)
    ensures var m := MovementFor(id, db.raws[op].scan, ReplayDecision(db, env, db.offline[op]));
            IsEntry(m, e, g) && HasEntered(db, e, g) <==> BreakingReplay(db, env, op, e, g)
  {
  }

  lemma InsertKeepsRule(db: Db, env: Env, w: Write, e: EventId, g: RegistrationId, replaying: bool)
    requires MovementsInv(db) && OneEntry(db, e, g) && Decided(db, env, w, e, replaying) && w.InsertProcessed?
    ensures OneEntry(Apply(db, w), e, g)
  {
    if w.scan.operationId !in db.raws {
      NewMovementBreaksRule(db, Apply(db, w), db.nextId, MovementFor(db.nextId + 1, w.scan, w.decision), e, g);
    }
  }

  lemma UpdateBreaksRule(db: Db, env: Env, w: Write, e: EventId, g: RegistrationId, replaying: bool)
    requires OneEntry(db, e, g) && NoReentry(env, e) && Decided(db, env, w, e, replaying) && w.UpdateProcessed?
    ensures OneEntry(Apply(db, w), e, g) <==> !(replaying && BreakingReplay(db, env, w.operationId, e, g))
  {
    var op := w.operationId;
    if replaying { EntryIffBreaking(db, env, op, db.nextId, e, g); }
    if op in db.raws && db.raws[op].rowId !in db.movements {
      NewMovementBreaksRule(db, Apply(db, w), db.raws[op].rowId,
                            MovementFor(db.nextId, db.raws[op].scan, w.decision), e, g);
    }
  }

  lemma WriteBreaksRule(db: Db, env: Env, w: Write, e: EventId, g: RegistrationId, replaying: bool)
    requires MovementsInv(db) && OneEntry(db, e, g) && NoReentry(env, e) && Decided(db, env, w, e, replaying)
    ensures OneEntry(Apply(db, w), e, g) <==>
            !(replaying && w.UpdateProcessed? && BreakingReplay(db, env, w.operationId, e, g))
  {
    if w.InsertProcessed? {
      InsertKeepsRule(db, env, w, e, g, replaying);
    } else if w.UpdateProcessed? {
      UpdateBreaksRule(db, env, w, e, g, replaying);
    } else {
      assert Apply(db, w).movements == db.movements;
    }
  }

  lemma BrokenStays(db: Db, w: Write, e: EventId, g: RegistrationId)
    requires Inv(db) && !OneEntry(db, e, g)
    ensures !OneEntry(Apply(db, w), e, g)
  {
    var a, b :| a in db.movements && b in db.movements && IsEntry(db.movements[a], e, g)
      && IsEntry(db.movements[b], e, g) && a != b;
    MovementsStay(db, w, a);
    MovementsStay(db, w, b);
  }

  lemma {:induction false} BrokenStaysAlong(db: Db, writes: seq<Write>, e: EventId, g: RegistrationId)
    requires Inv(db) && AllJustified(db, writes) && !OneEntry(db, e, g)
    ensures !OneEntry(ApplyAll(db, writes), e, g)
    decreases |writes|
  {
    if writes != [] {
      BrokenStays(db, writes[0], e, g);
      ApplyKeepsInv(db, writes[0]);
      BrokenStaysAlong(Apply(db, writes[0]), writes[1..], e, g);
    }
  }

  lemma {:induction false} WritesBreakRule(db: Db, env: Env, writes: seq<Write>, e: EventId, g: RegistrationId,
                                           replaying: bool)
    requires Inv(db) && AllJustified(db, writes) && OneEntry(db, e, g) && NoReentry(env, e)
    requires AllDecided(db, env, writes, e, replaying)
    ensures OneEntry(ApplyAll(db, writes), e, g) <==> !(replaying && SendsBreaking(db, env, writes, e, g))
    decreases |writes|
  {
    if writes != [] {
      WriteBreaksRule(db, env, writes[0], e, g, replaying);
      ApplyKeepsInv(db, writes[0]);
      if OneEntry(Apply(db, writes[0]), e, g) {
        WritesBreakRule(Apply(db, writes[0]), env, writes[1..], e, g, replaying);
      } else {
        BrokenStaysAlong(Apply(db, writes[0]), writes[1..], e, g);
      }
    }
  }

  // ----- How every plan decides -------------------------------------------

  lemma {:induction false} DecidedConcat(db: Db, env: Env, a: seq<Write>, b: seq<Write>, e: EventId, replaying: bool)
    requires AllDecided(db, env, a, e, replaying) && AllDecided(ApplyAll(db, a), env, b, e, replaying)
    ensures AllDecided(db, env, a + b, e, replaying)
    decreases |a|
  {
    if a == [] { assert a + b == b; }
    else {
      assert (a + b)[1..] == a[1..] + b;
      DecidedConcat(Apply(db, a[0]), env, a[1..], b, e, replaying);
    }
  }

  lemma {:induction false} DecidedPrefix(db: Db, env: Env, writes: seq<Write>, k: nat, e: EventId, replaying: bool)
    requires AllDecided(db, env, writes, e, replaying) && k <= |writes|
    ensures AllDecided(db, env, writes[..k], e, replaying)
    decreases |writes|
  {
    if k > 0 {
      assert writes[..k][1..] == writes[1..][..k - 1];
      DecidedPrefix(Apply(db, writes[0]), env, writes[1..], k - 1, e, replaying);
    }
  }

  lemma {:induction false} HarmlessIsDecided(db: Db, env: Env, writes: seq<Write>, e: EventId, replaying: bool)
    requires forall w :: w in writes ==> !w.InsertProcessed? && !w.UpdateProcessed?
    ensures AllDecided(db, env, writes, e, replaying)
    decreases |writes|
  {
    if writes != [] { HarmlessIsDecided(Apply(db, writes[0]), env, writes[1..], e, replaying); }
  }

  lemma ProcessIsDecided(db: Db, env: Env, op: OperationId, e: EventId)
    requires NoReentry(env, e)
    ensures AllDecided(db, env, PlanProcess(db, env, op).0, e, true)
  {
    var writes := PlanProcess(db, env, op).0;
    if writes != [] { HarmlessIsDecided(Apply(db, writes[0]), env, writes[1..], e, true); }
  }

  lemma TurnIsDecided(db: Db, env: Env, op: OperationId, g: RegistrationId, e: EventId)
    requires NoReentry(env, e)
    ensures AllDecided(db, env, PlanTurn(db, env, op, g), e, true)
  {
    var link := LinkOffline(op, g, None);
    var db1 := Apply(db, link);
    var (writes, threw) := PlanProcess(db1, env, op);
    ProcessIsDecided(db1, env, op, e);
    var tail := if threw then [FailOffline(op)] else [];
    HarmlessIsDecided(ApplyAll(db1, writes), env, tail, e, true);
    DecidedConcat(db1, env, writes, tail, e, true);
    assert ([link] + writes + tail)[1..] == writes + tail;
  }

  lemma {:induction false} ReconcileIsDecided(db: Db, env: Env, order: seq<OperationId>, g: RegistrationId, e: EventId)
    requires NoReentry(env, e)
    ensures AllDecided(db, env, PlanReconcile(db, env, order, g), e, true)
    decreases |order|
  {
    if order != [] {
      var turn := PlanTurn(db, env, order[0], g);
      TurnIsDecided(db, env, order[0], g, e);
      ReconcileIsDecided(ApplyAll(db, turn), env, order[1..], g, e);
      DecidedConcat(db, env, turn, PlanReconcile(ApplyAll(db, turn), env, order[1..], g), e, true);
    }
  }

  lemma ScanIsDecided(db: Db, env: Env, scan: Scan, e: EventId)
    requires NoReentry(env, e)
    ensures AllDecided(db, env, PlanScan(db, env, scan), e, false)
  {
    var writes := PlanScan(db, env, scan);
    if writes != [] { assert writes[1..] == []; }
  }

  lemma ProcessRawIsDecided(db: Db, env: Env, op: OperationId, rowId: nat, e: EventId)
    requires NoReentry(env, e)
    ensures AllDecided(db, env, PlanProcessRaw(db, env, op, rowId), e, false)
  {
    var writes := PlanProcessRaw(db, env, op, rowId);
    if writes != [] && writes[0].UpdateProcessed? {
      assert Decided(db, env, writes[0], e, false);
      HarmlessIsDecided(Apply(db, writes[0]), env, writes[1..], e, false);
    } else {
      HarmlessIsDecided(db, env, writes, e, false);
    }
  }

  lemma OfflineIsDecided(db: Db, env: Env, u: Upload, e: EventId)
    requires NoReentry(env, e)
    ensures AllDecided(db, env, PlanOffline(db, env, u), e, true)
  {
    var writes := PlanOffline(db, env, u);
    if |writes| > 1 {
      assert writes[1..] == PlanProcess(Apply(db, writes[0]), env, u.operationId).0;
      ProcessIsDecided(Apply(db, writes[0]), env, u.operationId, e);
    } else {
      HarmlessIsDecided(db, env, writes, e, true);
    }
  }

  /** The requests that replay offline operations. */
  predicate Replays(r: Request) { r.IngestOffline? || r.Reconcile? }

  lemma PlanIsDecided(db: Db, env: Env, r: Request, e: EventId)
    requires NoReentry(env, e)
    ensures AllDecided(db, env, Plan(db, env, r), e, Replays(r))
  {
    match r
    case Ingest(scan) =>
      if scan.operationId in db.raws && Retryable(db, scan.operationId) {
        var d := DeleteRaw(scan.operationId);
        ScanIsDecided(Apply(db, d), env, scan, e);
        assert PlanIngest(db, env, scan)[1..] == PlanScan(Apply(db, d), env, scan);
      } else {
        ScanIsDecided(db, env, scan, e);
      }
    case IngestFast(scan) => HarmlessIsDecided(db, env, PlanIngestFast(db, scan), e, false);
    case ProcessRawScan(op, rowId) => ProcessRawIsDecided(db, env, op, rowId, e);
    case IngestOffline(u) => OfflineIsDecided(db, env, u, e);
    case Reconcile(_, _, _, g, order) => ReconcileIsDecided(db, env, order, g, e);
  }

  /**
   * One request, stopped anywhere, takes the rule away from a registration
   * exactly when it is one that replays and it sends a breaking replay.
   */
  lemma StepBreaksRule(db: Db, s: Step, e: EventId, g: RegistrationId)
    requires Inv(db) && NoReentry(s.env, e) && OneEntry(db, e, g)
    ensures OneEntry(Next(db, s), e, g) <==>
            !(Answers(db, s.request) && Replays(s.request) && SendsBreaking(db, s.env, Sent(db, s), e, g))
  {
    if Answers(db, s.request) {
      var plan := Plan(db, s.env, s.request);
      SentIsJustified(db, s);
      PlanIsDecided(db, s.env, s.request, e);
      if s.stop < |plan| { DecidedPrefix(db, s.env, plan, s.stop, e, Replays(s.request)); }
      WritesBreakRule(db, s.env, Sent(db, s), e, g, Replays(s.request));
    }
  }

  // ----- Operation ids that keep their meaning ----------------------------

  predicate Labelled(meaning: Meaning, w: Write) {
    match w
    case InsertRaw(scan, _, _, _, _, _) => Means(meaning, scan.operationId, scan.eventId, scan.kind)
    case InsertProcessed(scan, _) => Means(meaning, scan.operationId, scan.eventId, scan.kind)
    case InsertOffline(op, row) => Means(meaning, op, row.eventId, row.kind)
    case _ => true
  }

  predicate AllLabelled(meaning: Meaning, writes: seq<Write>) { forall w :: w in writes ==> Labelled(meaning, w) }

  lemma WriteKeepsMeaning(meaning: Meaning, db: Db, w: Write)
    requires Consistent(meaning, db) && Labelled(meaning, w)
    ensures Consistent(meaning, Apply(db, w))
  {
  }

  lemma {:induction false} LabelledKeepMeaning(meaning: Meaning, db: Db, writes: seq<Write>)
    requires Consistent(meaning, db) && AllLabelled(meaning, writes)
    ensures Consistent(meaning, ApplyAll(db, writes))
    decreases |writes|
  {
    if writes != [] {
      assert writes[0] in writes;
      WriteKeepsMeaning(meaning, db, writes[0]);
      LabelledKeepMeaning(meaning, Apply(db, writes[0]), writes[1..]);
    }
  }

  /** While every operation id keeps its event and kind, no replay is a breaking one. */
  lemma {:induction false} MeaningForbidsBreaking(meaning: Meaning, db: Db, env: Env, writes: seq<Write>, e: EventId,
                                                  g: RegistrationId)
    requires Consistent(meaning, db) && AllLabelled(meaning, writes) && NoReentry(env, e)
    ensures !SendsBreaking(db, env, writes, e, g)
    decreases |writes|
  {
    if writes != [] {
      var w := writes[0];
      assert w in writes;
      if w.UpdateProcessed? { MeaningForbidsOne(meaning, db, env, w.operationId, e, g); }
      WriteKeepsMeaning(meaning, db, w);
      MeaningForbidsBreaking(meaning, Apply(db, w), env, writes[1..], e, g);
    }
  }

  lemma MeaningForbidsOne(meaning: Meaning, db: Db, env: Env, op: OperationId, e: EventId, g: RegistrationId)
    requires Consistent(meaning, db) && NoReentry(env, e)
    ensures !BreakingReplay(db, env, op, e, g)
  {
    assert op in db.raws ==> Means(meaning, op, db.raws[op].scan.eventId, db.raws[op].scan.kind);
    assert op in db.offline ==> Means(meaning, op, db.offline[op].eventId, db.offline[op].kind);
  }

  lemma ProcessIsLabelled(meaning: Meaning, db: Db, env: Env, op: OperationId)
    requires Consistent(meaning, db)
    ensures AllLabelled(meaning, PlanProcess(db, env, op).0)
  {
  }

  lemma TurnIsLabelled(meaning: Meaning, db: Db, env: Env, op: OperationId, g: RegistrationId)
    requires Consistent(meaning, db)
    ensures AllLabelled(meaning, PlanTurn(db, env, op, g))
  {
    var link := LinkOffline(op, g, None);
    WriteKeepsMeaning(meaning, db, link);
    ProcessIsLabelled(meaning, Apply(db, link), env, op);
  }

  lemma {:induction false} ReconcileIsLabelled(meaning: Meaning, db: Db, env: Env, order: seq<OperationId>,
                                               g: RegistrationId)
    requires Consistent(meaning, db)
    ensures AllLabelled(meaning, PlanReconcile(db, env, order, g))
    decreases |order|
  {
    if order != [] {
      var turn := PlanTurn(db, env, order[0], g);
      TurnIsLabelled(meaning, db, env, order[0], g);
      LabelledKeepMeaning(meaning, db, turn);
      ReconcileIsLabelled(meaning, ApplyAll(db, turn), env, order[1..], g);
    }
  }

  lemma OfflineIsLabelled(meaning: Meaning, db: Db, env: Env, u: Upload)
    requires Consistent(meaning, db) && Means(meaning, u.operationId, u.eventId, u.kind)
    ensures AllLabelled(meaning, PlanOffline(db, env, u))
  {
    var writes := PlanOffline(db, env, u);
    if |writes| > 1 {
      assert Labelled(meaning, writes[0]) && writes[1..] == PlanProcess(Apply(db, writes[0]), env, u.operationId).0;
      WriteKeepsMeaning(meaning, db, writes[0]);
      ProcessIsLabelled(meaning, Apply(db, writes[0]), env, u.operationId);
      assert forall w :: w in writes ==> w == writes[0] || w in writes[1..];
    }
  }

  lemma DirectIsLabelled(meaning: Meaning, db: Db, env: Env, scan: Scan)
    requires Means(meaning, scan.operationId, scan.eventId, scan.kind)
    ensures AllLabelled(meaning, PlanIngest(db, env, scan))
  {
    var d := if scan.operationId in db.raws then Apply(db, DeleteRaw(scan.operationId)) else db;
    forall w | w in PlanScan(d, env, scan) ensures Labelled(meaning, w) {}
  }

  lemma WorkerIsLabelled(meaning: Meaning, db: Db, env: Env, op: OperationId, rowId: nat)
    requires RawRowsInv(db) && Consistent(meaning, db)
    ensures AllLabelled(meaning, PlanProcessRaw(db, env, op, rowId))
  {
    forall w | w in PlanProcessRaw(db, env, op, rowId) ensures Labelled(meaning, w) {}
  }

  lemma PlanIsLabelled(meaning: Meaning, db: Db, env: Env, r: Request)
    requires RawRowsInv(db) && Consistent(meaning, db) && Fits(meaning, r)
    ensures AllLabelled(meaning, Plan(db, env, r))
  {
    match r
    case IngestOffline(u) => OfflineIsLabelled(meaning, db, env, u);
    case Reconcile(_, _, _, g, order) => ReconcileIsLabelled(meaning, db, env, order, g);
    case Ingest(scan) => DirectIsLabelled(meaning, db, env, scan);
    case IngestFast(_) =>
    case ProcessRawScan(op, rowId) => WorkerIsLabelled(meaning, db, env, op, rowId);
  }

  predicate RunFits(meaning: Meaning, steps: seq<Step>, e: EventId) {
    forall i :: 0 <= i < |steps| ==> Fits(meaning, steps[i].request) && NoReentry(steps[i].env, e)
  }

  lemma NextKeepsRule(meaning: Meaning, db: Db, s: Step, e: EventId, g: RegistrationId)
    requires Inv(db) && Consistent(meaning, db) && Fits(meaning, s.request) && NoReentry(s.env, e) && OneEntry(db, e, g)
    ensures Inv(Next(db, s)) && Consistent(meaning, Next(db, s)) && OneEntry(Next(db, s), e, g)
  {
    NextIsSafe(db, s);
    StepBreaksRule(db, s, e, g);
    PlanIsLabelled(meaning, db, s.env, s.request);
    LabelledKeepMeaning(meaning, db, Sent(db, s));
    MeaningForbidsBreaking(meaning, db, s.env, Sent(db, s), e, g);
  }

  /**
   * Over any run of requests, one at a time and stopped anywhere, in which an
   * operation id keeps its event and its kind: a registration never has two
   * allowed entries to an event that does not allow re-entry.
   */
  lemma {:induction false} NobodyEntersTwice(meaning: Meaning, db: Db, steps: seq<Step>, e: EventId, g: RegistrationId)
    requires Inv(db) && Consistent(meaning, db) && RunFits(meaning, steps, e) && OneEntry(db, e, g)
    ensures OneEntry(Run(db, steps), e, g)
    decreases |steps|
  {
    if steps != [] {
      NextKeepsRule(meaning, db, steps[0], e, g);
      NobodyEntersTwice(meaning, Next(db, steps[0]), steps[1..], e, g);
    }
  }

  // ----- Who gets the entry when a registration is reconciled ------------

  /** An operation that asks for an entry and is neither failing nor refused at its gate. */
  predicate Candidate(db: Db, env: Env, op: OperationId, e: EventId, g: RegistrationId) {
    && MakesMovement(db, env, op) && db.offline[op].eventId == e && db.offline[op].kind == Entry
    && ContextOf(env, db.offline[op]).token.registrationId == g
    && Admits(env, Some(db.offline[op].checkpointId), ContextOf(env, db.offline[op]).typeCode)
  }

  lemma CandidateStays(a: Db, b: Db, env: Env, op: OperationId, e: EventId, g: RegistrationId)
    requires SameRows(a, b, op)
    ensures Candidate(a, env, op, e, g) == Candidate(b, env, op, e, g)
  {
    assert op in a.offline ==> Lookup(a.offline, op) == Some(a.offline[op]);
    assert op in b.offline ==> Lookup(b.offline, op) == Some(b.offline[op]);
  }

  lemma LinkKeepsReplay(db: Db, env: Env, op: OperationId, g: RegistrationId)
    requires op in db.offline && db.offline[op].status !in {Processed, Conflicted}
    ensures var linked := Apply(db, LinkOffline(op, g, None));
            && MakesMovement(linked, env, op) == MakesMovement(db, env, op)
            && (MakesMovement(db, env, op) ==> ReplayMovement(linked, env, op) == ReplayMovement(db, env, op))
  {
    var o := db.offline[op];
    var linked := Apply(db, LinkOffline(op, g, None));
    var l := linked.offline[op];
    assert l == o.(status := Linked, registrationId := Some(g));
    SameLink(env.mappings, o, l);
    assert ContextOf(env, o) == ContextOf(env, l);
    if MakesMovement(db, env, op) {
      var t := ContextOf(env, o).token;
      assert HasEntered(db, o.eventId, t.registrationId) == HasEntered(linked, o.eventId, t.registrationId);
    }
  }

  lemma {:induction false} SameLink(mappings: seq<Mapping>, o: OfflineScan, l: OfflineScan)
    requires o.eventId == l.eventId && o.qrToken == l.qrToken && o.registrationOperationId == l.registrationOperationId
    ensures FindLinked(mappings, o) == FindLinked(mappings, l)
  {
    if mappings != [] { SameLink(mappings[1..], o, l); }
  }

  /** A turn of the reconciliation loop makes the replay's movement, or none. */
  lemma TurnMakes(db: Db, env: Env, op: OperationId, link: RegistrationId)
    requires op in db.offline && db.offline[op].status !in {Processed, Conflicted}
    ensures var next := ApplyAll(db, PlanTurn(db, env, op, link));
            && (MakesMovement(db, env, op) ==>
                  MovementOf(next, op) == Some(ReplayMovement(db, env, op))
                  && next.movements ==
                     db.movements[(if op in db.raws then db.raws[op].rowId else db.nextId) :=
                                  ReplayMovement(db, env, op)])
            && (!MakesMovement(db, env, op) ==> next.movements == db.movements)
  {
    var w := LinkOffline(op, link, None);
    var linked := Apply(db, w);
    LinkKeepsReplay(db, env, op, link);
    var (writes, threw) := PlanProcess(linked, env, op);
    var done := ApplyAll(linked, writes);
    TurnInSteps(db, env, op, link);
    if MakesMovement(db, env, op) {
      ReplayMakes(linked, env, op);
      FailKeepsMovements(done, op);
    } else {
      NoMovementMade(linked, env, op);
    }
  }

  lemma FailKeepsMovements(db: Db, op: OperationId)
    ensures Apply(db, FailOffline(op)).movements == db.movements
            && MovementOf(Apply(db, FailOffline(op)), op) == MovementOf(db, op)
  {
  }

  lemma NoMovementMade(db: Db, env: Env, op: OperationId)
    requires op in db.offline && !MakesMovement(db, env, op)
    ensures ApplyAll(db, PlanProcess(db, env, op).0).movements == db.movements
  {
    OneWrite(db, PlanProcess(db, env, op).0);
  }

  predicate Queue(db: Db, order: seq<OperationId>) {
    && (forall i :: 0 <= i < |order| ==>
        order[i] in db.offline && db.offline[order[i]].status !in {Processed, Conflicted})
    && (forall i, j :: 0 <= i < j < |order| ==> order[i] != order[j])
  }

  /** A turn leaves the rest of the queue as it was, and the later turns leave its movement as it is. */
  lemma TurnKeepsQueue(db: Db, env: Env, order: seq<OperationId>, link: RegistrationId)
    requires Inv(db) && order != [] && Queue(db, order)
    ensures var next := ApplyAll(db, PlanTurn(db, env, order[0], link));
            Queue(next, order[1..]) && forall j :: 1 <= j < |order| ==> SameRows(db, next, order[j])
  {
    var turn := PlanTurn(db, env, order[0], link);
    var next := ApplyAll(db, turn);
    TurnIsJustified(db, env, order[0], link);
    TurnHasOneTarget(db, env, order[0], link);
    forall j | 1 <= j < |order|
      ensures SameRows(db, next, order[j]) && order[j] in next.offline
              && next.offline[order[j]].status !in {Processed, Conflicted}
    {
      WritesLeaveOthers(db, turn, order[0], order[j]);
      assert Lookup(db.offline, order[j]) == Some(db.offline[order[j]]);
    }
  }

  lemma TurnLeavesRest(db: Db, env: Env, order: seq<OperationId>, link: RegistrationId)
    requires Inv(db) && order != [] && Queue(db, order)
    ensures var next := ApplyAll(db, PlanTurn(db, env, order[0], link));
            && Inv(next) && Queue(next, order[1..])
            && Reconciled(db, env, order, link) == Reconciled(next, env, order[1..], link)
            && KeepsMovements(next, Reconciled(db, env, order, link))
            && forall j :: 1 <= j < |order| ==> SameRows(db, next, order[j])
  {
    var turn := PlanTurn(db, env, order[0], link);
    var next := ApplyAll(db, turn);
    TurnIsJustified(db, env, order[0], link);
    JustifiedWritesAreSafe(db, turn);
    TurnKeepsQueue(db, env, order, link);
    TurnThenRest(db, env, order, link);
    ReconcileIsJustified(next, env, order[1..], link);
    JustifiedWritesAreSafe(next, PlanReconcile(next, env, order[1..], link));
  }

  predicate DeniedAsEntered(db: Db, op: OperationId) {
    MovementOf(db, op).Some? && MovementOf(db, op).value.result == Denied
      && MovementOf(db, op).value.reason == "ALREADY_ENTERED"
  }

  lemma CandidateIsDenied(db: Db, env: Env, op: OperationId, e: EventId, g: RegistrationId)
    requires NoReentry(env, e) && HasEntered(db, e, g) && Candidate(db, env, op, e, g)
    ensures MakesMovement(db, env, op)
    ensures ReplayMovement(db, env, op).result == Denied && ReplayMovement(db, env, op).reason == "ALREADY_ENTERED"
  {
  }

  lemma TurnKeepsEntry(db: Db, env: Env, op: OperationId, link: RegistrationId, e: EventId, g: RegistrationId)
    requires Inv(db) && Queue(db, [op]) && HasEntered(db, e, g)
    ensures HasEntered(ApplyAll(db, PlanTurn(db, env, op, link)), e, g)
  {
    assert [op][0] == op;
    var next := ApplyAll(db, PlanTurn(db, env, op, link));
    TurnMakes(db, env, op, link);
    var row :| row in db.movements && IsEntry(db.movements[row], e, g);
    assert row in next.movements && IsEntry(next.movements[row], e, g);
  }

  lemma TurnDenies(db: Db, env: Env, op: OperationId, link: RegistrationId, e: EventId, g: RegistrationId)
    requires Inv(db) && Queue(db, [op]) && NoReentry(env, e) && HasEntered(db, e, g)
    ensures var next := ApplyAll(db, PlanTurn(db, env, op, link));
            HasEntered(next, e, g) && (Candidate(db, env, op, e, g) ==> DeniedAsEntered(next, op))
  {
    assert [op][0] == op;
    var next := ApplyAll(db, PlanTurn(db, env, op, link));
    TurnMakes(db, env, op, link);
    if Candidate(db, env, op, e, g) { CandidateIsDenied(db, env, op, e, g); }
    TurnKeepsEntry(db, env, op, link, e, g);
  }

  lemma {:induction false} LaterAreDenied(db: Db, env: Env, order: seq<OperationId>, link: RegistrationId, e: EventId,
                                          g: RegistrationId)
    requires Inv(db) && Queue(db, order) && NoReentry(env, e) && HasEntered(db, e, g)
    ensures forall j :: 0 <= j < |order| && Candidate(db, env, order[j], e, g) ==>
              DeniedAsEntered(Reconciled(db, env, order, link), order[j])
    decreases |order|
  {
    if order != [] {
      var next := ApplyAll(db, PlanTurn(db, env, order[0], link));
      TurnDenies(db, env, order[0], link, e, g);
      TurnLeavesRest(db, env, order, link);
      LaterAreDenied(next, env, order[1..], link, e, g);
      forall j | 0 <= j < |order| && Candidate(db, env, order[j], e, g)
        ensures DeniedAsEntered(Reconciled(db, env, order, link), order[j])
      {
        if j > 0 {
          CandidateStays(db, next, env, order[j], e, g);
          assert order[1..][j - 1] == order[j];
        }
      }
    }
  }

  /** Which operations of the queue are candidates. */
  function Candidates(db: Db, env: Env, order: seq<OperationId>, e: EventId, g: RegistrationId): seq<bool> {
    seq(|order|, i requires 0 <= i < |order| => Candidate(db, env, order[i], e, g))
  }

  predicate IsFirst(flags: seq<bool>, i: nat) { i < |flags| && flags[i] && forall j :: 0 <= j < i ==> !flags[j] }

  predicate Enters(final: Db, op: OperationId, e: EventId, g: RegistrationId) {
    MovementOf(final, op).Some? && IsEntry(MovementOf(final, op).value, e, g)
  }

  predicate RestDenied(flags: seq<bool>, final: Db, order: seq<OperationId>, i: nat)
    requires |flags| == |order|
  {
    forall j :: i < j < |order| && flags[j] ==> DeniedAsEntered(final, order[j])
  }

  /** The first candidate, if any, enters; every other one is denied; without one nobody enters. */
  ghost predicate FirstEnters(flags: seq<bool>, final: Db, order: seq<OperationId>, e: EventId, g: RegistrationId)
    requires |flags| == |order|
  {
    && ((forall j :: 0 <= j < |flags| ==> !flags[j]) ==> !HasEntered(final, e, g))
    && forall i: nat :: IsFirst(flags, i) ==> Enters(final, order[i], e, g) && RestDenied(flags, final, order, i)
  }

  lemma FirstIsHead(flags: seq<bool>, final: Db, order: seq<OperationId>, e: EventId, g: RegistrationId)
    requires |flags| == |order| && flags != [] && flags[0]
    requires Enters(final, order[0], e, g) && RestDenied(flags, final, order, 0)
    ensures FirstEnters(flags, final, order, e, g)
  {
    forall i: nat | IsFirst(flags, i) ensures i == 0 { }
  }

  lemma FirstOfRest(flags: seq<bool>, final: Db, order: seq<OperationId>, e: EventId, g: RegistrationId)
    requires |flags| == |order| && flags != [] && !flags[0] && FirstEnters(flags[1..], final, order[1..], e, g)
    ensures FirstEnters(flags, final, order, e, g)
  {
    if forall j :: 0 <= j < |flags| ==> !flags[j] { assert forall j :: 0 <= j < |flags| - 1 ==> !flags[1..][j]; }
    forall i: nat | IsFirst(flags, i) ensures Enters(final, order[i], e, g) && RestDenied(flags, final, order, i) {
      assert IsFirst(flags[1..], i - 1) && order[1..][i - 1] == order[i];
      forall j | i < j < |order| && flags[j] ensures DeniedAsEntered(final, order[j]) {
        assert RestDenied(flags[1..], final, order[1..], i - 1) && flags[1..][j - 1] && order[1..][j - 1] == order[j];
      }
    }
  }

  lemma ReplayIsEntryIffCandidate(meaning: Meaning, db: Db, env: Env, op: OperationId, e: EventId, g: RegistrationId)
    requires NoReentry(env, e) && !HasEntered(db, e, g) && Consistent(meaning, db) && MakesMovement(db, env, op)
    ensures IsEntry(ReplayMovement(db, env, op), e, g) <==> Candidate(db, env, op, e, g)
  {
    assert op in db.raws ==> Means(meaning, op, db.raws[op].scan.eventId, db.raws[op].scan.kind);
    assert Means(meaning, op, db.offline[op].eventId, db.offline[op].kind);
  }

  lemma NewMovementEnters(db: Db, next: Db, row: nat, m: Movement, e: EventId, g: RegistrationId)
    requires !HasEntered(db, e, g) && next.movements == db.movements[row := m]
    ensures HasEntered(next, e, g) <==> IsEntry(m, e, g)
  {
    if IsEntry(m, e, g) { assert row in next.movements && next.movements[row] == m; }
  }

  lemma FirstTurn(meaning: Meaning, db: Db, env: Env, op: OperationId, link: RegistrationId, e: EventId,
                  g: RegistrationId)
    requires op in db.offline && db.offline[op].status !in {Processed, Conflicted}
    requires NoReentry(env, e) && !HasEntered(db, e, g) && Consistent(meaning, db)
    ensures var next := ApplyAll(db, PlanTurn(db, env, op, link));
            && (HasEntered(next, e, g) <==> Candidate(db, env, op, e, g))
            && (Candidate(db, env, op, e, g) ==> Enters(next, op, e, g))
            && Consistent(meaning, next)
  {
    var next := ApplyAll(db, PlanTurn(db, env, op, link));
    TurnMakes(db, env, op, link);
    TurnIsLabelled(meaning, db, env, op, link);
    LabelledKeepMeaning(meaning, db, PlanTurn(db, env, op, link));
    if MakesMovement(db, env, op) {
      ReplayIsEntryIffCandidate(meaning, db, env, op, e, g);
      NewMovementEnters(db, next, if op in db.raws then db.raws[op].rowId else db.nextId,
                        ReplayMovement(db, env, op), e, g);
    }
  }

  lemma {:induction false} FirstCandidateEnters(meaning: Meaning, db: Db, env: Env, order: seq<OperationId>,
                                                link: RegistrationId,
                                                e: EventId, g: RegistrationId)
    requires Inv(db) && Queue(db, order) && NoReentry(env, e) && !HasEntered(db, e, g) && Consistent(meaning, db)
    ensures FirstEnters(Candidates(db, env, order, e, g), Reconciled(db, env, order, link), order, e, g)
    decreases |order|
  {
    if order != [] {
      var next, final := ApplyAll(db, PlanTurn(db, env, order[0], link)), Reconciled(db, env, order, link);
      var flags := Candidates(db, env, order, e, g);
      FirstTurn(meaning, db, env, order[0], link, e, g);
      TurnLeavesRest(db, env, order, link);
      RestAsBefore(db, next, env, order, e, g);
      if flags[0] {
        LaterAreDenied(next, env, order[1..], link, e, g);
        RestIsDenied(next, final, env, order, e, g);
        FirstIsHead(flags, final, order, e, g);
      } else {
        FirstCandidateEnters(meaning, next, env, order[1..], link, e, g);
        FirstOfRest(flags, final, order, e, g);
      }
    }
  }

  lemma RestAsBefore(db: Db, next: Db, env: Env, order: seq<OperationId>, e: EventId, g: RegistrationId)
    requires order != [] && forall j :: 1 <= j < |order| ==> SameRows(db, next, order[j])
    ensures Candidates(db, env, order, e, g)[1..] == Candidates(next, env, order[1..], e, g)
  {
    forall j | 1 <= j < |order|
      ensures Candidate(db, env, order[j], e, g) == Candidate(next, env, order[1..][j - 1], e, g)
    {
      CandidateStays(db, next, env, order[j], e, g);
    }
  }

  lemma RestIsDenied(next: Db, final: Db, env: Env, order: seq<OperationId>, e: EventId, g: RegistrationId)
    requires order != []
    requires forall j :: 0 <= j < |order| - 1 && Candidate(next, env, order[1..][j], e, g) ==>
             DeniedAsEntered(final, order[1..][j])
    ensures forall flags: seq<bool> :: |flags| == |order| && flags[1..] == Candidates(next, env, order[1..], e, g) ==>
              RestDenied(flags, final, order, 0)
  {
    forall flags: seq<bool> | |flags| == |order| && flags[1..] == Candidates(next, env, order[1..], e, g)
      ensures RestDenied(flags, final, order, 0)
    {
      forall j | 0 < j < |order| && flags[j] ensures DeniedAsEntered(final, order[j]) {
        assert flags[1..][j - 1] && order[1..][j - 1] == order[j];
      }
    }
  }

  /**
   * On a registration that has not entered, reconciliation lets in the
   * earliest-scanned waiting entry that neither fails nor is refused at its
   * gate, and denies every other such entry.
   */
  lemma ReconcileAdmitsEarliest(meaning: Meaning, db: Db, env: Env, qrToken: string, regOp: string,
                                order: seq<OperationId>,
                                link: RegistrationId, e: EventId, g: RegistrationId, first: OperationId)
    requires Inv(db) && NoReentry(env, e) && !HasEntered(db, e, g) && Consistent(meaning, db)
    requires IsWaitingList(db, e, qrToken, regOp, order) && Earliest(db, env, order, e, g, first)
    ensures var final := Reconciled(db, env, order, link);
            && Enters(final, first, e, g)
            && forall op :: op in order && op != first && Candidate(db, env, op, e, g) ==> DeniedAsEntered(final, op)
  {
    ListIsQueue(db, e, qrToken, regOp, order);
    FirstCandidateEnters(meaning, db, env, order, link, e, g);
    AllOthersAreDenied(db, Reconciled(db, env, order, link), env, order, e, g, first);
  }

  predicate Earliest(db: Db, env: Env, order: seq<OperationId>, e: EventId, g: RegistrationId, first: OperationId)
    requires forall op :: op in order ==> op in db.offline
  {
    && first in order && Candidate(db, env, first, e, g)
    && forall op :: op in order && op != first && Candidate(db, env, op, e, g) ==>
       db.offline[first].scannedAt < db.offline[op].scannedAt
  }

  lemma AllOthersAreDenied(db: Db, final: Db, env: Env, order: seq<OperationId>, e: EventId, g: RegistrationId,
                           first: OperationId)
    requires Queue(db, order) && Earliest(db, env, order, e, g, first)
    requires FirstEnters(Candidates(db, env, order, e, g), final, order, e, g)
    requires forall i, j :: 0 <= i < j < |order| ==> db.offline[order[i]].scannedAt <= db.offline[order[j]].scannedAt
    ensures Enters(final, first, e, g)
    ensures forall op :: op in order && op != first && Candidate(db, env, op, e, g) ==> DeniedAsEntered(final, op)
  {
    var flags := Candidates(db, env, order, e, g);
    var i :| 0 <= i < |order| && order[i] == first;
    forall j | 0 <= j < i ensures !flags[j] {
      assert order[j] in order && db.offline[order[j]].scannedAt <= db.offline[order[i]].scannedAt;
    }
    assert IsFirst(flags, i);
    forall op | op in order && op != first && Candidate(db, env, op, e, g) ensures DeniedAsEntered(final, op) {
      var j :| 0 <= j < |order| && order[j] == op;
      assert flags[j] && j != i && !(j < i);
    }
  }

  lemma ListIsQueue(db: Db, e: EventId, qrToken: string, regOp: string, order: seq<OperationId>)
    requires IsWaitingList(db, e, qrToken, regOp, order)
    ensures Queue(db, order)
    ensures forall i, j :: 0 <= i < j < |order| ==> db.offline[order[i]].scannedAt <= db.offline[order[j]].scannedAt
  {
    forall i | 0 <= i < |order|
      ensures order[i] in db.offline && db.offline[order[i]].status !in {Processed, Conflicted}
    {
      assert Waiting(db, e, qrToken, regOp, order[i]);
    }
  }
}
