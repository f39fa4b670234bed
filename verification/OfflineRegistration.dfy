/**
 * Offline registrations of one event: every submission of a signed offline
 * registration runs the same sequence of awaited reads and writes, may stop at
 * any of them, and may run beside other submissions of the same payload.
 */
module OfflineRegistration {
  import opened Wrappers

  type RegistrationId = nat
  type MappingId = nat
  type ExecutorId = nat

  /** What the device submits. `hash` is the hash of the signed QR inside it. */
  datatype Payload = Payload(device: nat, operationId: string, localId: string, qrToken: string, hash: string,
                             externalId: Option<string>, phone: string, email: Option<string>)

  datatype Registration = Registration(externalId: Option<string>, phone: Option<string>, email: Option<string>)

  datatype MappingStatus = Pending | Synced | Conflicted

  datatype Mapping = Mapping(device: nat, operationId: string, localId: string, qrToken: string, hash: string,
                             registrationId: Option<RegistrationId>, status: MappingStatus)

  datatype ReplyKind = AlreadySynced | RecoveredExisting | Created

  datatype Reply = Reply(payload: Payload, kind: ReplyKind, registrationId: RegistrationId)

  datatype Stage =
    | FindingMapping
    | MarkingConflict(mapping: MappingId)
    | ReadingRegistration(registrationId: RegistrationId)
    | Upserting
    | LookingUp(mapping: MappingId)
    | Creating(mapping: MappingId)
    | MarkingFailure(mapping: MappingId, permanent: bool)
    | Linking(mapping: MappingId, registrationId: RegistrationId, kind: ReplyKind)

  datatype Executor = Executor(payload: Payload, stage: Stage)

  /** `replies` and `created` record the successful replies and the rows that submissions inserted. */
  datatype System = System(registrations: map<RegistrationId, Registration>, mappings: map<MappingId, Mapping>,
                           executors: map<ExecutorId, Executor>, replies: set<Reply>,
                           created: set<(Payload, RegistrationId)>)

  datatype Step =
    | Submit(executor: ExecutorId, payload: Payload)
    | FindMapping(executor: ExecutorId, found: MappingId)
    | MarkConflict(executor: ExecutorId)
    | ReadRegistration(executor: ExecutorId)
    | UpsertMapping(executor: ExecutorId, newMapping: MappingId)
    | LookUpByExternalId(executor: ExecutorId, match_: RegistrationId)
    | CreateRegistration(executor: ExecutorId, newRegistration: RegistrationId)
    | RejectCreation(executor: ExecutorId, permanent: bool)   // validation, or an error of the moment
    | MarkFailure(executor: ExecutorId)
    | LinkMapping(executor: ExecutorId)
    | Stop(executor: ExecutorId)
    | CreateElsewhere(newRegistration: RegistrationId, registration: Registration)

  // ----- The queries ---------------------------------------------------

  /** findExistingOfflineMapping: any of the three identities. */
  predicate Matches(m: Mapping, p: Payload) {
    || (m.device == p.device && m.operationId == p.operationId)
    || (m.device == p.device && m.localId == p.localId)
    || m.qrToken == p.qrToken
  }

  predicate SameKey(m: Mapping, p: Payload) { m.device == p.device && m.operationId == p.operationId }

  /** The externalId the recovery lookup uses. */
  function LookupId(p: Payload): string { if p.externalId.Some? then p.externalId.value else p.operationId }

  function RegistrationOf(p: Payload): Registration { Registration(p.externalId, Some(p.phone), p.email) }

  /** The unique indexes on (event, externalId), (event, phone) and (event, email); nulls never collide. */
  predicate Collides(a: Registration, b: Registration) {
    || (a.externalId.Some? && a.externalId == b.externalId)
    || (a.phone.Some? && a.phone == b.phone)
    || (a.email.Some? && a.email == b.email)
  }

  predicate Insertable(rows: map<RegistrationId, Registration>, id: RegistrationId, row: Registration) {
    id !in rows && forall g :: g in rows ==> !Collides(rows[g], row)
  }

  // ----- Steps ---------------------------------------------------------

  function Goto(sys: System, x: ExecutorId, stage: Stage): System
    requires x in sys.executors
  {
    sys.(executors := sys.executors[x := sys.executors[x].(stage := stage)])
  }

  function End(sys: System, x: ExecutorId): System { sys.(executors := sys.executors - {x}) }

  function EndWith(sys: System, x: ExecutorId, kind: ReplyKind, g: RegistrationId): System
    requires x in sys.executors
  {
    sys.(executors := sys.executors - {x}, replies := sys.replies + {Reply(sys.executors[x].payload, kind, g)})
  }

  /** Conflict, bad request and not found are permanent; after anything else the mapping waits for another try. */
  function FailureStatus(permanent: bool): MappingStatus { if permanent then Conflicted else Pending }

  function SetMapping(sys: System, m: MappingId, row: Mapping): System {
    sys.(mappings := sys.mappings[m := row])
  }

  function Next(sys: System, step: Step): System {
    match step
    case Submit(x, p) =>
      if x in sys.executors then sys else sys.(executors := sys.executors[x := Executor(p, FindingMapping)])
    case FindMapping(x, m) =>
      if x !in sys.executors || !sys.executors[x].stage.FindingMapping? then sys
      else
        var p := sys.executors[x].payload;
        if m in sys.mappings && Matches(sys.mappings[m], p) then
          var row := sys.mappings[m];
          if row.qrToken != p.qrToken || row.hash != p.hash then Goto(sys, x, MarkingConflict(m))
          else if row.registrationId.Some? then Goto(sys, x, ReadingRegistration(row.registrationId.value))
          else Goto(sys, x, Upserting)
        else if exists k :: k in sys.mappings && Matches(sys.mappings[k], p) then sys
        else Goto(sys, x, Upserting)
    case MarkConflict(x) =>
      if x !in sys.executors || !sys.executors[x].stage.MarkingConflict? then sys
      else
        var m := sys.executors[x].stage.mapping;
        if m !in sys.mappings then End(sys, x)
        else End(SetMapping(sys, m, sys.mappings[m].(status := Conflicted)), x)
    case ReadRegistration(x) =>
      if x !in sys.executors || !sys.executors[x].stage.ReadingRegistration? then sys
      else
        var g := sys.executors[x].stage.registrationId;
        if g in sys.registrations then EndWith(sys, x, AlreadySynced, g) else Goto(sys, x, Upserting)
    case UpsertMapping(x, newMapping) =>
      if x !in sys.executors || !sys.executors[x].stage.Upserting? then sys
      else
        var p := sys.executors[x].payload;
        if newMapping in sys.mappings && SameKey(sys.mappings[newMapping], p) then Goto(sys, x, LookingUp(newMapping))
        else if newMapping in sys.mappings || (exists k :: k in sys.mappings && SameKey(sys.mappings[k], p)) then sys
        else if exists k :: k in sys.mappings && Matches(sys.mappings[k], p) then End(sys, x)
        else Goto(SetMapping(sys, newMapping,
                             Mapping(p.device, p.operationId, p.localId, p.qrToken, p.hash, None, Pending)),
                  x, LookingUp(newMapping))
    case LookUpByExternalId(x, g) =>
      if x !in sys.executors || !sys.executors[x].stage.LookingUp? then sys
      else
        var p, m := sys.executors[x].payload, sys.executors[x].stage.mapping;
        if g in sys.registrations && sys.registrations[g].externalId == Some(LookupId(p))
        then Goto(sys, x, Linking(m, g, RecoveredExisting))
        else if exists k :: k in sys.registrations && sys.registrations[k].externalId == Some(LookupId(p)) then sys
        else Goto(sys, x, Creating(m))
    case CreateRegistration(x, g) =>
      if x !in sys.executors || !sys.executors[x].stage.Creating? then sys
      else
        var p, m := sys.executors[x].payload, sys.executors[x].stage.mapping;
        if !Insertable(sys.registrations, g, RegistrationOf(p)) then Goto(sys, x, MarkingFailure(m, true))
        else Goto(sys.(registrations := sys.registrations[g := RegistrationOf(p)], created := sys.created + {(p, g)}),
                  x, Linking(m, g, Created))
    case RejectCreation(x, permanent) =>
      if x !in sys.executors || !sys.executors[x].stage.Creating? then sys
      else Goto(sys, x, MarkingFailure(sys.executors[x].stage.mapping, permanent))
    case MarkFailure(x) =>
      if x !in sys.executors || !sys.executors[x].stage.MarkingFailure? then sys
      else
        var m := sys.executors[x].stage.mapping;
        if m !in sys.mappings then End(sys, x)
        else End(SetMapping(sys, m, sys.mappings[m].(status := FailureStatus(sys.executors[x].stage.permanent))), x)
    case LinkMapping(x) =>
      if x !in sys.executors || !sys.executors[x].stage.Linking? then sys
      else
        var stage := sys.executors[x].stage;
        if stage.mapping !in sys.mappings then End(sys, x)
        else EndWith(SetMapping(sys, stage.mapping,
                                sys.mappings[stage.mapping].(registrationId := Some(stage.registrationId),
                                                             status := Synced)),
                     x, stage.kind, stage.registrationId)
    case Stop(x) => End(sys, x)
    case CreateElsewhere(g, row) =>
      if Insertable(sys.registrations, g, row) then sys.(registrations := sys.registrations[g := row]) else sys
  }

  function Run(sys: System, steps: seq<Step>): System
    decreases |steps|
  {
    if steps == [] then sys else Run(Next(sys, steps[0]), steps[1..])
  }

  // ----- The invariant -------------------------------------------------

  /** Resubmissions repeat their payload: two payloads that share an identity are the same. */
  ghost predicate Consistent(payloads: set<Payload>) {
    forall p, q :: p in payloads && q in payloads && SharesIdentity(p, q) ==> p == q
  }

  predicate SharesIdentity(p: Payload, q: Payload) {
    || (p.device == q.device && (p.operationId == q.operationId || p.localId == q.localId))
    || p.qrToken == q.qrToken
  }

  /** The registration a reply to `p` may name. */
  predicate Names(rows: map<RegistrationId, Registration>, p: Payload, g: RegistrationId) {
    && g in rows
    && match p.externalId
       case Some(id) => rows[g].externalId == Some(id)
       case None => rows[g].phone == Some(p.phone) || rows[g].externalId == Some(p.operationId)
  }

  predicate IsMappingOf(m: Mapping, p: Payload) {
    m.device == p.device && m.operationId == p.operationId && m.localId == p.localId && m.qrToken == p.qrToken
      && m.hash == p.hash
  }

  ghost predicate MappingInv(sys: System, payloads: set<Payload>, m: MappingId)
    requires m in sys.mappings
  {
    exists p :: p in payloads && IsMappingOf(sys.mappings[m], p)
      && (sys.mappings[m].registrationId.Some? ==> Names(sys.registrations, p, sys.mappings[m].registrationId.value))
  }

  ghost predicate ExecutorInv(sys: System, payloads: set<Payload>, x: Executor) {
    && x.payload in payloads
    && match x.stage
       case FindingMapping => true
       case Upserting => true
       case MarkingConflict(m) => m in sys.mappings
       case ReadingRegistration(g) => Names(sys.registrations, x.payload, g)
       case LookingUp(m) => m in sys.mappings && IsMappingOf(sys.mappings[m], x.payload)
       case Creating(m) => m in sys.mappings && IsMappingOf(sys.mappings[m], x.payload)
       case MarkingFailure(m, _) => m in sys.mappings && IsMappingOf(sys.mappings[m], x.payload)
       case Linking(m, g, _) =>
         m in sys.mappings && IsMappingOf(sys.mappings[m], x.payload) && Names(sys.registrations, x.payload, g)
  }

  ghost predicate UniqueRegistrations(rows: map<RegistrationId, Registration>) {
    forall g, h :: g in rows && h in rows && g != h ==> !Collides(rows[g], rows[h])
  }

  ghost predicate Inv(sys: System, payloads: set<Payload>) {
    && Consistent(payloads)
    && UniqueRegistrations(sys.registrations)
    && (forall m :: m in sys.mappings ==> MappingInv(sys, payloads, m))
    && (forall x :: x in sys.executors ==> ExecutorInv(sys, payloads, sys.executors[x]))
    && (forall r :: r in sys.replies ==> Names(sys.registrations, r.payload, r.registrationId))
    && (forall c :: c in sys.created ==> c.1 in sys.registrations && sys.registrations[c.1] == RegistrationOf(c.0))
  }

  /** The mapping found for a payload is the payload's own, so an honest resubmission never conflicts. */
  lemma MatchIsOwn(sys: System, payloads: set<Payload>, m: MappingId, p: Payload)
    requires Inv(sys, payloads) && m in sys.mappings && p in payloads && Matches(sys.mappings[m], p)
    ensures IsMappingOf(sys.mappings[m], p)
    ensures sys.mappings[m].registrationId.Some? ==> Names(sys.registrations, p, sys.mappings[m].registrationId.value)
  {
    assert MappingInv(sys, payloads, m);
    var q :| q in payloads && IsMappingOf(sys.mappings[m], q)
      && (sys.mappings[m].registrationId.Some? ==> Names(sys.registrations, q, sys.mappings[m].registrationId.value));
    assert SharesIdentity(p, q);
  }

  function Identity(m: Mapping): (nat, string, string, string, string) {
    (m.device, m.operationId, m.localId, m.qrToken, m.hash)
  }

  /** Rows are only added, mappings keep their identity: everything known about the tables stays known. */
  ghost predicate Grows(a: System, b: System) {
    && (forall g :: g in a.registrations ==> g in b.registrations && b.registrations[g] == a.registrations[g])
    && (forall m :: m in a.mappings ==> m in b.mappings && Identity(b.mappings[m]) == Identity(a.mappings[m]))
  }

  lemma GrowsKeeps(a: System, b: System, payloads: set<Payload>, x: Executor)
    requires Grows(a, b) && ExecutorInv(a, payloads, x)
    ensures ExecutorInv(b, payloads, x)
  {
    forall m | m in a.mappings && IsMappingOf(a.mappings[m], x.payload) ensures IsMappingOf(b.mappings[m], x.payload) {
      assert Identity(b.mappings[m]) == Identity(a.mappings[m]);
    }
  }

  lemma MappingsKeep(a: System, b: System, payloads: set<Payload>, m: MappingId)
    requires Grows(a, b) && m in a.mappings && b.mappings[m].registrationId == a.mappings[m].registrationId
    requires MappingInv(a, payloads, m)
    ensures MappingInv(b, payloads, m)
  {
    var p :| p in payloads && IsMappingOf(a.mappings[m], p)
      && (a.mappings[m].registrationId.Some? ==> Names(a.registrations, p, a.mappings[m].registrationId.value));
    GrowsKeeps(a, b, payloads, Executor(p, LookingUp(m)));
    assert IsMappingOf(b.mappings[m], p);
  }

  /** Steps that only move their executor. */
  lemma GotoKeepsInv(sys: System, payloads: set<Payload>, x: ExecutorId, stage: Stage)
    requires Inv(sys, payloads) && x in sys.executors
    requires ExecutorInv(sys, payloads, sys.executors[x].(stage := stage))
    ensures Inv(Goto(sys, x, stage), payloads)
  {
    var t := Goto(sys, x, stage);
    forall m | m in t.mappings ensures MappingInv(t, payloads, m) { MappingsKeep(sys, t, payloads, m); }
    forall y | y in t.executors ensures ExecutorInv(t, payloads, t.executors[y]) {
      if y != x { GrowsKeeps(sys, t, payloads, sys.executors[y]); }
      else { GrowsKeeps(sys, t, payloads, sys.executors[x].(stage := stage)); }
    }
  }

  lemma EndKeepsInv(sys: System, payloads: set<Payload>, x: ExecutorId)
    requires Inv(sys, payloads)
    ensures Inv(End(sys, x), payloads)
  {
    var t := End(sys, x);
    forall m | m in t.mappings ensures MappingInv(t, payloads, m) { MappingsKeep(sys, t, payloads, m); }
    forall y | y in t.executors ensures ExecutorInv(t, payloads, t.executors[y]) {
      GrowsKeeps(sys, t, payloads, sys.executors[y]);
    }
  }

  lemma ReplyKeepsInv(sys: System, payloads: set<Payload>, x: ExecutorId, kind: ReplyKind, g: RegistrationId)
    requires Inv(sys, payloads) && x in sys.executors && Names(sys.registrations, sys.executors[x].payload, g)
    ensures Inv(EndWith(sys, x, kind, g), payloads)
  {
    EndKeepsInv(sys, payloads, x);
    var t, u := EndWith(sys, x, kind, g), End(sys, x);
    forall m | m in t.mappings ensures MappingInv(t, payloads, m) { MappingsKeep(u, t, payloads, m); }
    forall y | y in t.executors
      ensures ExecutorInv(t, payloads, t.executors[y])
    {
      GrowsKeeps(u, t, payloads, u.executors[y]);
    }
  }

  /** A mapping row is inserted or updated for a payload it belongs to. */
  lemma SetMappingKeepsInv(sys: System, payloads: set<Payload>, m: MappingId, row: Mapping, p: Payload)
    requires Inv(sys, payloads) && p in payloads && IsMappingOf(row, p)
    requires row.registrationId.Some? ==> Names(sys.registrations, p, row.registrationId.value)
    requires m in sys.mappings ==> IsMappingOf(sys.mappings[m], p)
    ensures Inv(SetMapping(sys, m, row), payloads) && Grows(sys, SetMapping(sys, m, row))
  {
    var t := SetMapping(sys, m, row);
    forall k | k in t.mappings ensures MappingInv(t, payloads, k) {
      if k != m { MappingsKeep(sys, t, payloads, k); }
    }
    forall y | y in t.executors
      ensures ExecutorInv(t, payloads, t.executors[y])
    {
      GrowsKeeps(sys, t, payloads, sys.executors[y]);
    }
  }

  lemma StatusKeepsInv(sys: System, payloads: set<Payload>, m: MappingId, status: MappingStatus)
    requires Inv(sys, payloads) && m in sys.mappings
    ensures Inv(SetMapping(sys, m, sys.mappings[m].(status := status)), payloads)
  {
    assert MappingInv(sys, payloads, m);
    var p :| p in payloads && IsMappingOf(sys.mappings[m], p)
      && (sys.mappings[m].registrationId.Some? ==> Names(sys.registrations, p, sys.mappings[m].registrationId.value));
    SetMappingKeepsInv(sys, payloads, m, sys.mappings[m].(status := status), p);
  }

  lemma InsertKeepsInv(sys: System, payloads: set<Payload>, g: RegistrationId, row: Registration,
                       created: set<(Payload, RegistrationId)>)
    requires Inv(sys, payloads) && Insertable(sys.registrations, g, row)
    requires forall c :: c in created ==> c.1 == g && row == RegistrationOf(c.0)
    ensures var t := sys.(registrations := sys.registrations[g := row], created := sys.created + created);
            Inv(t, payloads)
  {
    var t := sys.(registrations := sys.registrations[g := row], created := sys.created + created);
    forall m | m in t.mappings ensures MappingInv(t, payloads, m) { MappingsKeep(sys, t, payloads, m); }
    forall y | y in t.executors
      ensures ExecutorInv(t, payloads, t.executors[y])
    {
      GrowsKeeps(sys, t, payloads, sys.executors[y]);
    }
  }

  lemma SubmitKeepsInv(sys: System, payloads: set<Payload>, x: ExecutorId, p: Payload)
    requires Inv(sys, payloads) && p in payloads
    ensures Inv(Next(sys, Submit(x, p)), payloads)
  {
    var t := Next(sys, Submit(x, p));
    forall m | m in t.mappings ensures MappingInv(t, payloads, m) { MappingsKeep(sys, t, payloads, m); }
    forall y | y in t.executors ensures ExecutorInv(t, payloads, t.executors[y]) {
      if y in sys.executors { GrowsKeeps(sys, t, payloads, sys.executors[y]); }
    }
  }

  lemma FindKeepsInv(sys: System, payloads: set<Payload>, x: ExecutorId, m: MappingId)
    requires Inv(sys, payloads) && x in sys.executors && sys.executors[x].stage.FindingMapping?
    ensures Inv(Next(sys, FindMapping(x, m)), payloads)
  {
    var t := Next(sys, FindMapping(x, m));
    if m in sys.mappings && Matches(sys.mappings[m], sys.executors[x].payload) {
      MatchIsOwn(sys, payloads, m, sys.executors[x].payload);
    }
    if t != sys { GotoKeepsInv(sys, payloads, x, t.executors[x].stage); }
  }

  lemma MarkKeepsInv(sys: System, payloads: set<Payload>, x: ExecutorId, m: MappingId, status: MappingStatus)
    requires Inv(sys, payloads) && m in sys.mappings
    ensures Inv(End(SetMapping(sys, m, sys.mappings[m].(status := status)), x), payloads)
  {
    StatusKeepsInv(sys, payloads, m, status);
    EndKeepsInv(SetMapping(sys, m, sys.mappings[m].(status := status)), payloads, x);
  }

  lemma UpsertKeepsInv(sys: System, payloads: set<Payload>, x: ExecutorId, m: MappingId)
    requires Inv(sys, payloads) && x in sys.executors && sys.executors[x].stage.Upserting?
    ensures Inv(Next(sys, UpsertMapping(x, m)), payloads)
  {
    var t, p := Next(sys, UpsertMapping(x, m)), sys.executors[x].payload;
    if t != sys {
      if x !in t.executors {
        EndKeepsInv(sys, payloads, x);
      } else if m in sys.mappings {
        MatchIsOwn(sys, payloads, m, p);
        GotoKeepsInv(sys, payloads, x, LookingUp(m));
      } else {
        var row := Mapping(p.device, p.operationId, p.localId, p.qrToken, p.hash, None, Pending);
        SetMappingKeepsInv(sys, payloads, m, row, p);
        GotoKeepsInv(SetMapping(sys, m, row), payloads, x, LookingUp(m));
      }
    }
  }

  lemma CreateKeepsInv(sys: System, payloads: set<Payload>, x: ExecutorId, g: RegistrationId)
    requires Inv(sys, payloads) && x in sys.executors && sys.executors[x].stage.Creating?
    ensures Inv(Next(sys, CreateRegistration(x, g)), payloads)
  {
    var p, m := sys.executors[x].payload, sys.executors[x].stage.mapping;
    if Insertable(sys.registrations, g, RegistrationOf(p)) {
      InsertKeepsInv(sys, payloads, g, RegistrationOf(p), {(p, g)});
      var u := sys.(registrations := sys.registrations[g := RegistrationOf(p)], created := sys.created + {(p, g)});
      GotoKeepsInv(u, payloads, x, Linking(m, g, Created));
    } else {
      GotoKeepsInv(sys, payloads, x, MarkingFailure(m, true));
    }
  }

  lemma LinkKeepsInv(sys: System, payloads: set<Payload>, x: ExecutorId)
    requires Inv(sys, payloads) && x in sys.executors && sys.executors[x].stage.Linking?
    ensures Inv(Next(sys, LinkMapping(x)), payloads)
  {
    var stage, p := sys.executors[x].stage, sys.executors[x].payload;
    var row := sys.mappings[stage.mapping].(registrationId := Some(stage.registrationId), status := Synced);
    assert ExecutorInv(sys, payloads, sys.executors[x]);
    SetMappingKeepsInv(sys, payloads, stage.mapping, row, p);
    var t := SetMapping(sys, stage.mapping, row);
    assert t.executors == sys.executors && t.registrations == sys.registrations;
    ReplyKeepsInv(t, payloads, x, stage.kind, stage.registrationId);
  }

  lemma StepKeepsInv(sys: System, payloads: set<Payload>, step: Step)
    requires Inv(sys, payloads) && (step.Submit? ==> step.payload in payloads)
    ensures Inv(Next(sys, step), payloads)
  {
    if Next(sys, step) != sys {
      match step
      case Submit(x, p) => SubmitKeepsInv(sys, payloads, x, p);
      case FindMapping(x, m) => FindKeepsInv(sys, payloads, x, m);
      case MarkConflict(x) => MarkKeepsInv(sys, payloads, x, sys.executors[x].stage.mapping, Conflicted);
      case ReadRegistration(x) => ReplyKeepsInv(sys, payloads, x, AlreadySynced, sys.executors[x].stage.registrationId);
      case UpsertMapping(x, m) => UpsertKeepsInv(sys, payloads, x, m);
      case LookUpByExternalId(x, g) => GotoKeepsInv(sys, payloads, x, Next(sys, step).executors[x].stage);
      case CreateRegistration(x, g) => CreateKeepsInv(sys, payloads, x, g);
      case RejectCreation(x, permanent) =>
        GotoKeepsInv(sys, payloads, x, MarkingFailure(sys.executors[x].stage.mapping, permanent));
      case MarkFailure(x) =>
        var stage := sys.executors[x].stage;
        MarkKeepsInv(sys, payloads, x, stage.mapping, FailureStatus(stage.permanent));
      case LinkMapping(x) => LinkKeepsInv(sys, payloads, x);
      case Stop(x) => EndKeepsInv(sys, payloads, x);
      case CreateElsewhere(g, row) =>
        InsertKeepsInv(sys, payloads, g, row, {});
        assert sys.created + {} == sys.created;
    }
  }

  predicate Submits(steps: seq<Step>, payloads: set<Payload>) {
    forall k :: 0 <= k < |steps| && steps[k].Submit? ==> steps[k].payload in payloads
  }

  lemma {:induction false} RunKeepsInv(sys: System, payloads: set<Payload>, steps: seq<Step>)
    requires Inv(sys, payloads) && Submits(steps, payloads)
    ensures Inv(Run(sys, steps), payloads)
    decreases |steps|
  {
    if steps != [] {
      StepKeepsInv(sys, payloads, steps[0]);
      assert forall k :: 0 <= k < |steps[1..]| ==> steps[1..][k] == steps[k + 1];
      RunKeepsInv(Next(sys, steps[0]), payloads, steps[1..]);
    }
  }

  const EMPTY_SYSTEM := System(map[], map[], map[], {}, {})

  /**
   * Exactly once, over any interleaving and any stops: every successful reply to
   * a payload with an externalId names the one registration that carries it.
   */
  lemma RepliesNameOneRegistration(payloads: set<Payload>, steps: seq<Step>, a: Reply, b: Reply)
    requires Consistent(payloads) && Submits(steps, payloads)
    requires a in Run(EMPTY_SYSTEM, steps).replies && b in Run(EMPTY_SYSTEM, steps).replies
    requires a.payload == b.payload && a.payload.externalId.Some?
    ensures a.registrationId == b.registrationId
    ensures var rows := Run(EMPTY_SYSTEM, steps).registrations;
            forall g :: g in rows && rows[g].externalId == a.payload.externalId <==> g == a.registrationId
  {
    RunKeepsInv(EMPTY_SYSTEM, payloads, steps);
    var rows := Run(EMPTY_SYSTEM, steps).registrations;
    assert Names(rows, a.payload, a.registrationId) && Names(rows, b.payload, b.registrationId);
    forall g | g in rows && rows[g].externalId == a.payload.externalId ensures g == a.registrationId {
      assert Collides(rows[g], rows[a.registrationId]);
    }
  }

  /** With or without an externalId, a payload never inserts two registrations. */
  lemma OneInsertPerPayload(payloads: set<Payload>, steps: seq<Step>, p: Payload, g: RegistrationId, h: RegistrationId)
    requires Consistent(payloads) && Submits(steps, payloads)
    requires (p, g) in Run(EMPTY_SYSTEM, steps).created && (p, h) in Run(EMPTY_SYSTEM, steps).created
    ensures g == h
  {
    RunKeepsInv(EMPTY_SYSTEM, payloads, steps);
    var rows := Run(EMPTY_SYSTEM, steps).registrations;
    assert rows[(p, g).1] == RegistrationOf(p) && rows[(p, h).1] == RegistrationOf(p);
  }

  predicate Carries(rows: map<RegistrationId, Registration>, id: string, g: RegistrationId) {
    g in rows && rows[g].externalId == Some(id)
  }

  ghost predicate Carried(rows: map<RegistrationId, Registration>, id: string) { exists g :: Carries(rows, id, g) }

  /**
   * The steps of a retry that nothing interrupts, `found` being what its look-up
   * answers; those not reached do nothing.
   */
  function RetrySteps(x: ExecutorId, p: Payload, m: MappingId, found: RegistrationId,
                      created: RegistrationId): seq<Step>
  {
    [Submit(x, p), FindMapping(x, m), UpsertMapping(x, m), LookUpByExternalId(x, found),
     CreateRegistration(x, created), LinkMapping(x), MarkFailure(x)]
  }

  /** Whom a retry recovers: its own registration, a stranger that carries the operation id, or nobody. */
  ghost function Recovered(rows: map<RegistrationId, Registration>, p: Payload,
                           found: RegistrationId): Option<RegistrationId>
  {
    if p.externalId.Some? || Carried(rows, p.operationId) then Some(found) else None
  }

  /**
   * After a stop between the insert of `g` and the link, an undisturbed retry
   * of `p` has exactly three outcomes. It names `g` if and only if the payload
   * carries an externalId: the look-up falls back to the operation id, but the
   * insert never stored that. Without one it links a stranger if and only if
   * some registration carries the operation id as its externalId; otherwise it
   * collides with the phone it inserted itself and ends in conflict.
   */
  lemma RecoveryNeedsExternalId(sys: System, x: ExecutorId, p: Payload, m: MappingId, g: RegistrationId,
                                found: RegistrationId, created: RegistrationId)
    requires UniqueRegistrations(sys.registrations) && x !in sys.executors
    requires m in sys.mappings && IsMappingOf(sys.mappings[m], p) && sys.mappings[m].registrationId.None?
    requires g in sys.registrations && sys.registrations[g] == RegistrationOf(p)
    requires Carried(sys.registrations, LookupId(p)) ==> Carries(sys.registrations, LookupId(p), found)
    ensures var t := Run(sys, RetrySteps(x, p, m, found, created));
            && m in t.mappings && t.registrations == sys.registrations && x !in t.executors
            && (t.mappings[m].registrationId == Some(g) <==> p.externalId.Some?)
            && (t.mappings[m].registrationId == Some(found) && found != g
                <==> p.externalId.None? && Carried(sys.registrations, p.operationId))
            && (t.mappings[m].status == Conflicted <==>
                p.externalId.None? && !Carried(sys.registrations, p.operationId))
            && t.replies == match t.mappings[m].registrationId
                            case Some(named) => sys.replies + {Reply(p, RecoveredExisting, named)}
                            case None => sys.replies
  {
    var steps := RetrySteps(x, p, m, found, created);
    RunSeven(sys, steps);
    RetryReachesLookup(sys, x, p, m);
    var s3 := sys.(executors := sys.executors[x := Executor(p, LookingUp(m))]);
    RetryAfterLookup(sys, s3, x, p, m, g, found, created);
    RecoveredIs(sys.registrations, p, g, found);
  }

  lemma RecoveredIs(rows: map<RegistrationId, Registration>, p: Payload, g: RegistrationId, found: RegistrationId)
    requires UniqueRegistrations(rows) && g in rows && rows[g] == RegistrationOf(p)
    requires Carried(rows, LookupId(p)) ==> Carries(rows, LookupId(p), found)
    ensures p.externalId.Some? ==> found == g
    ensures p.externalId.None? && Carried(rows, p.operationId) ==> found != g
  {
    if p.externalId.Some? {
      assert Carries(rows, LookupId(p), g);
      if found != g { assert Collides(rows[g], rows[found]); }
    }
  }

  lemma RetryReachesLookup(sys: System, x: ExecutorId, p: Payload, m: MappingId)
    requires x !in sys.executors && m in sys.mappings && IsMappingOf(sys.mappings[m], p)
             && sys.mappings[m].registrationId.None?
    ensures Next(Next(Next(sys, Submit(x, p)), FindMapping(x, m)), UpsertMapping(x, m)) ==
            sys.(executors := sys.executors[x := Executor(p, LookingUp(m))])
  {
    var s2 := Next(Next(sys, Submit(x, p)), FindMapping(x, m));
    assert s2.executors[x] == Executor(p, Upserting);
  }

  lemma RetryAfterLookup(sys: System, s3: System, x: ExecutorId, p: Payload, m: MappingId, g: RegistrationId,
                         found: RegistrationId, created: RegistrationId)
    requires x !in sys.executors && m in sys.mappings && sys.mappings[m].registrationId.None?
    requires g in sys.registrations && sys.registrations[g] == RegistrationOf(p)
    requires Carried(sys.registrations, LookupId(p)) ==> Carries(sys.registrations, LookupId(p), found)
    requires s3 == sys.(executors := sys.executors[x := Executor(p, LookingUp(m))])
    ensures Next(Next(Next(Next(s3, LookUpByExternalId(x, found)), CreateRegistration(x, created)), LinkMapping(x)),
                 MarkFailure(x)) ==
            match Recovered(sys.registrations, p, found)
            case Some(named) =>
              sys.(mappings := sys.mappings[m := sys.mappings[m].(registrationId := Some(named), status := Synced)],
                   replies := sys.replies + {Reply(p, RecoveredExisting, named)})
            case None => sys.(mappings := sys.mappings[m := sys.mappings[m].(status := Conflicted)])
  {
    if Carried(sys.registrations, LookupId(p)) {
      RetryFindsCarrier(sys, s3, x, p, m, found, created);
    } else {
      if p.externalId.Some? { assert Carries(sys.registrations, LookupId(p), g); }
      RetryFindsNobody(sys, s3, x, p, m, g, found, created);
    }
  }

  lemma RetryFindsCarrier(sys: System, s3: System, x: ExecutorId, p: Payload, m: MappingId, found: RegistrationId,
                          created: RegistrationId)
    requires x !in sys.executors && m in sys.mappings && sys.mappings[m].registrationId.None?
    requires Carried(sys.registrations, LookupId(p)) && Carries(sys.registrations, LookupId(p), found)
    requires s3 == sys.(executors := sys.executors[x := Executor(p, LookingUp(m))])
    ensures Next(Next(Next(Next(s3, LookUpByExternalId(x, found)), CreateRegistration(x, created)), LinkMapping(x)),
                 MarkFailure(x)) ==
            sys.(mappings := sys.mappings[m := sys.mappings[m].(registrationId := Some(found), status := Synced)],
                 replies := sys.replies + {Reply(p, RecoveredExisting, found)})
  {
    var s5 := Next(Next(s3, LookUpByExternalId(x, found)), CreateRegistration(x, created));
    var linking := Executor(p, Linking(m, found, RecoveredExisting));
    assert s5.executors == sys.executors[x := linking];
    assert sys.executors[x := linking] - {x} == sys.executors;
  }

  lemma RetryFindsNobody(sys: System, s3: System, x: ExecutorId, p: Payload, m: MappingId, g: RegistrationId,
                         found: RegistrationId, created: RegistrationId)
    requires x !in sys.executors && m in sys.mappings && sys.mappings[m].registrationId.None?
    requires g in sys.registrations && sys.registrations[g] == RegistrationOf(p)
    requires !Carried(sys.registrations, LookupId(p))
    requires s3 == sys.(executors := sys.executors[x := Executor(p, LookingUp(m))])
    ensures Next(Next(Next(Next(s3, LookUpByExternalId(x, found)), CreateRegistration(x, created)), LinkMapping(x)),
                 MarkFailure(x)) ==
            sys.(mappings := sys.mappings[m := sys.mappings[m].(status := Conflicted)])
  {
    var s4 := Next(s3, LookUpByExternalId(x, found));
    var s5 := Next(s4, CreateRegistration(x, created));
    assert forall k :: k in sys.registrations ==> !Carries(sys.registrations, LookupId(p), k);
    assert s4.executors == sys.executors[x := Executor(p, Creating(m))];
    assert Collides(sys.registrations[g], RegistrationOf(p));
    var failing := Executor(p, MarkingFailure(m, true));
    assert s5.executors == sys.executors[x := failing];
    assert sys.executors[x := failing] - {x} == sys.executors;
  }

  lemma RunSeven(sys: System, steps: seq<Step>)
    requires |steps| == 7
    ensures Run(sys, steps) ==
            Next(Next(Next(Next(Next(Next(Next(sys, steps[0]), steps[1]), steps[2]), steps[3]), steps[4]), steps[5]),
                 steps[6])
  {
    assert steps == steps[..4] + steps[4..];
    RunConcat(sys, steps[..4], steps[4..]);
    RunFour(sys, steps[..4]);
    RunThree(Run(sys, steps[..4]), steps[4..]);
  }

  lemma RunThree(sys: System, steps: seq<Step>)
    requires |steps| == 3
    ensures Run(sys, steps) == Next(Next(Next(sys, steps[0]), steps[1]), steps[2])
  {
    assert steps[1..][1..] == [steps[2]] && [steps[2]][1..] == [];
    assert Run(Next(Next(sys, steps[0]), steps[1]), [steps[2]]) == Next(Next(Next(sys, steps[0]), steps[1]), steps[2]);
  }

  lemma RunFour(sys: System, steps: seq<Step>)
    requires |steps| == 4
    ensures Run(sys, steps) == Next(Next(Next(Next(sys, steps[0]), steps[1]), steps[2]), steps[3])
  {
    RunThree(Next(sys, steps[0]), steps[1..]);
  }

  lemma {:induction false} RunConcat(sys: System, a: seq<Step>, b: seq<Step>)
    ensures Run(sys, a + b) == Run(Run(sys, a), b)
    decreases |a|
  {
    if a == [] { assert a + b == b; }
    else {
      assert (a + b)[1..] == a[1..] + b;
      RunConcat(Next(sys, a[0]), a[1..], b);
    }
  }

  // ----- The tables and the requests -----------------------------------

  class OfflineRegistrations {
    var registrations: map<RegistrationId, Registration>
    var mappings: map<MappingId, Mapping>
    var executors: map<ExecutorId, Executor>
    ghost var replies: set<Reply>
    ghost var created: set<(Payload, RegistrationId)>

    ghost function State(): System reads this { System(registrations, mappings, executors, replies, created) }

    constructor ()
      ensures State() == EMPTY_SYSTEM
    {
      registrations, mappings, executors, replies, created := map[], map[], map[], {}, {};
    }

    method Advance(x: ExecutorId, stage: Stage)
      requires x in executors
      modifies this`executors
      ensures executors == old(executors)[x := old(executors)[x].(stage := stage)]
    {
      executors := executors[x := executors[x].(stage := stage)];
    }

    /** findExistingOfflineMapping and the checks on its row. */
    method Find(x: ExecutorId, m: MappingId)
      requires x in executors && executors[x].stage.FindingMapping?
      modifies this`executors
      ensures State() == Next(old(State()), FindMapping(x, m))
    {
      var p := executors[x].payload;
      if m in mappings && Matches(mappings[m], p) {
        if mappings[m].qrToken != p.qrToken || mappings[m].hash != p.hash {
          Advance(x, MarkingConflict(m));
        } else if mappings[m].registrationId.Some? {
          Advance(x, ReadingRegistration(mappings[m].registrationId.value));
        } else {
          Advance(x, Upserting);
        }
      } else if !exists k :: k in mappings && Matches(mappings[k], p) {
        Advance(x, Upserting);
      }
    }

    /**
     * The upsert on (device, event, operation): an empty update, or an insert
     * that the other unique keys may refuse.
     */
    method Upsert(x: ExecutorId, newMapping: MappingId)
      requires x in executors && executors[x].stage.Upserting?
      requires newMapping in mappings ==> SameKey(mappings[newMapping], executors[x].payload)
      requires newMapping !in mappings ==> forall k :: k in mappings ==> !SameKey(mappings[k], executors[x].payload)
      modifies this`executors, this`mappings
      ensures State() == Next(old(State()), UpsertMapping(x, newMapping))
      ensures x in executors ==> newMapping in mappings && executors[x].stage == LookingUp(newMapping)
    {
      var p := executors[x].payload;
      if newMapping !in mappings {
        if exists k :: k in mappings && Matches(mappings[k], p) {
          executors := executors - {x};
          return;
        }
        mappings := mappings[newMapping :=
                             Mapping(p.device, p.operationId, p.localId, p.qrToken, p.hash, None, Pending)];
      }
      Advance(x, LookingUp(newMapping));
    }

    /** registrationsService.create under the unique indexes. */
    method Insert(x: ExecutorId, g: RegistrationId) returns (inserted: bool)
      requires x in executors && executors[x].stage.Creating?
      modifies this
      ensures State() == Next(old(State()), CreateRegistration(x, g))
      ensures inserted == Insertable(old(registrations), g, RegistrationOf(old(executors)[x].payload))
    {
      var p, m := executors[x].payload, executors[x].stage.mapping;
      inserted := Insertable(registrations, g, RegistrationOf(p));
      if inserted {
        registrations := registrations[g := RegistrationOf(p)];
        created := created + {(p, g)};
        Advance(x, Linking(m, g, Created));
      } else {
        Advance(x, MarkingFailure(m, true));
      }
    }

    /** The error handler's mapping update; its caller then sees the error. */
    method Fail(x: ExecutorId)
      requires x in executors && executors[x].stage.MarkingFailure? && executors[x].stage.mapping in mappings
      modifies this`executors, this`mappings
      ensures State() == Next(old(State()), MarkFailure(x))
      ensures mappings[old(executors)[x].stage.mapping].status == FailureStatus(old(executors)[x].stage.permanent)
    {
      var m, permanent := executors[x].stage.mapping, executors[x].stage.permanent;
      mappings := mappings[m := mappings[m].(status := FailureStatus(permanent))];
      executors := executors - {x};
    }

    /** The mapping update that ends a successful submission. */
    method Link(x: ExecutorId) returns (kind: ReplyKind, g: RegistrationId)
      requires x in executors && executors[x].stage.Linking? && executors[x].stage.mapping in mappings
      modifies this
      ensures State() == Next(old(State()), LinkMapping(x))
      ensures Reply(old(executors)[x].payload, kind, g) in replies
      ensures mappings[old(executors)[x].stage.mapping].registrationId == Some(g)
    {
      var stage := executors[x].stage;
      kind, g := stage.kind, stage.registrationId;
      mappings := mappings[stage.mapping := mappings[stage.mapping].(registrationId := Some(g), status := Synced)];
      replies := replies + {Reply(executors[x].payload, kind, g)};
      executors := executors - {x};
    }
  }
}
