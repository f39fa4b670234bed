/**
 * What one submission of an offline registration that nothing interrupts
 * leaves in the tables and answers, case by case.
 */
module OfflineOutcomes {
  import opened Wrappers
  import opened OfflineRegistration

  /** The mapping is of none of the payload's three identities. */
  predicate Stranger(m: Mapping, p: Payload) {
    m.qrToken != p.qrToken && (m.device == p.device ==> m.operationId != p.operationId && m.localId != p.localId)
  }

  ghost predicate UnknownPayload(sys: System, p: Payload) {
    forall k :: k in sys.mappings ==> Stranger(sys.mappings[k], p)
  }

  /** A registration that the recovery look-up would take for this submission's. */
  predicate LooksLike(row: Registration, p: Payload) {
    row.externalId == Some(if p.externalId.Some? then p.externalId.value else p.operationId)
  }

  /** A registration the unique indexes keep from standing beside this payload's. */
  predicate Clashes(row: Registration, p: Payload) {
    || (p.externalId.Some? && row.externalId == p.externalId)
    || row.phone == Some(p.phone)
    || (p.email.Some? && row.email == p.email)
  }

  /** The mapping a submission inserts, before it is linked. */
  function OwnMapping(p: Payload, g: Option<RegistrationId>, status: MappingStatus): Mapping {
    Mapping(p.device, p.operationId, p.localId, p.qrToken, p.hash, g, status)
  }

  lemma FirstReachesLookup(sys: System, x: ExecutorId, p: Payload, m: MappingId)
    requires x !in sys.executors && m !in sys.mappings && UnknownPayload(sys, p)
    ensures Next(Next(Next(sys, Submit(x, p)), FindMapping(x, m)), UpsertMapping(x, m)) ==
            sys.(mappings := sys.mappings[m := OwnMapping(p, None, Pending)],
                 executors := sys.executors[x := Executor(p, LookingUp(m))])
  {
    var s2 := Next(Next(sys, Submit(x, p)), FindMapping(x, m));
    assert s2 == sys.(executors := sys.executors[x := Executor(p, Upserting)]);
  }

  /** Nobody looks like this submission's registration: it goes on to create one. */
  lemma LookupMisses(sys: System, x: ExecutorId, p: Payload, m: MappingId, g: RegistrationId)
    requires x in sys.executors && sys.executors[x] == Executor(p, LookingUp(m))
    requires forall h :: h in sys.registrations ==> !LooksLike(sys.registrations[h], p)
    ensures Next(sys, LookUpByExternalId(x, g)) == sys.(executors := sys.executors[x := Executor(p, Creating(m))])
  {
  }

  lemma CreateInserts(sys: System, x: ExecutorId, p: Payload, m: MappingId, g: RegistrationId)
    requires x in sys.executors && sys.executors[x] == Executor(p, Creating(m)) && g !in sys.registrations
    requires forall h :: h in sys.registrations ==> !Clashes(sys.registrations[h], p)
    ensures Next(sys, CreateRegistration(x, g)) ==
            sys.(registrations := sys.registrations[g := Registration(p.externalId, Some(p.phone), p.email)],
                 created := sys.created + {(p, g)},
                 executors := sys.executors[x := Executor(p, Linking(m, g, Created))])
  {
    forall h | h in sys.registrations ensures !Collides(sys.registrations[h], RegistrationOf(p)) {
      ClashesAreCollisions(sys.registrations[h], p);
    }
  }

  lemma ClashesAreCollisions(row: Registration, p: Payload)
    ensures Clashes(row, p) <==> Collides(row, RegistrationOf(p))
  {
  }

  lemma CreateClashes(sys: System, x: ExecutorId, p: Payload, m: MappingId, g: RegistrationId, h: RegistrationId)
    requires x in sys.executors && sys.executors[x] == Executor(p, Creating(m))
    requires h in sys.registrations && Clashes(sys.registrations[h], p)
    ensures Next(sys, CreateRegistration(x, g)) ==
            sys.(executors := sys.executors[x := Executor(p, MarkingFailure(m, true))])
  {
    ClashesAreCollisions(sys.registrations[h], p);
  }

  lemma LinkEnds(sys: System, x: ExecutorId, p: Payload, m: MappingId, g: RegistrationId, kind: ReplyKind)
    requires x in sys.executors && sys.executors[x] == Executor(p, Linking(m, g, kind)) && m in sys.mappings
    ensures Next(sys, LinkMapping(x)) ==
            sys.(mappings := sys.mappings[m := sys.mappings[m].(registrationId := Some(g), status := Synced)],
                 executors := sys.executors - {x}, replies := sys.replies + {Reply(p, kind, g)})
  {
  }

  lemma FailureEnds(sys: System, x: ExecutorId, p: Payload, m: MappingId, permanent: bool)
    requires x in sys.executors && sys.executors[x] == Executor(p, MarkingFailure(m, permanent)) && m in sys.mappings
    ensures Next(sys, MarkFailure(x)) ==
            sys.(mappings := sys.mappings[m := sys.mappings[m].(status := if permanent then Conflicted else Pending)],
                 executors := sys.executors - {x})
  {
  }

  /** The four steps of a first submission up to the creation. */
  function UpToCreation(x: ExecutorId, p: Payload, m: MappingId, g: RegistrationId): seq<Step> {
    [Submit(x, p), FindMapping(x, m), UpsertMapping(x, m), LookUpByExternalId(x, g)]
  }

  lemma ReachesCreation(sys: System, x: ExecutorId, p: Payload, m: MappingId, g: RegistrationId)
    requires x !in sys.executors && m !in sys.mappings && UnknownPayload(sys, p)
    requires forall h :: h in sys.registrations ==> !LooksLike(sys.registrations[h], p)
    ensures Run(sys, UpToCreation(x, p, m, g)) ==
            sys.(mappings := sys.mappings[m := OwnMapping(p, None, Pending)],
                 executors := sys.executors[x := Executor(p, Creating(m))])
  {
    FirstReachesLookup(sys, x, p, m);
    var s3 := Next(Next(Next(sys, Submit(x, p)), FindMapping(x, m)), UpsertMapping(x, m));
    LookupMisses(s3, x, p, m, g);
    RunFour(sys, UpToCreation(x, p, m, g));
  }

  lemma RunTwo(sys: System, s: Step, t: Step)
    ensures Run(sys, [s, t]) == Next(Next(sys, s), t)
  {
    assert [s, t][1..] == [t] && [t][1..] == [];
    assert Run(Next(sys, s), [t]) == Run(Next(Next(sys, s), t), []);
  }

  lemma RunSix(sys: System, s: seq<Step>)
    requires |s| == 6
    ensures Run(sys, s) == Next(Next(Next(Next(Next(Next(sys, s[0]), s[1]), s[2]), s[3]), s[4]), s[5])
  {
    assert s == s[..3] + s[3..];
    RunConcat(sys, s[..3], s[3..]);
    RunThree(sys, s[..3]);
    RunThree(Run(sys, s[..3]), s[3..]);
  }

  /** The tables after a submission, its executor gone again. */
  predicate LeavesTables(sys: System, t: System, rows: map<RegistrationId, Registration>, maps: map<MappingId, Mapping>,
                         replies: set<Reply>)
  {
    t.registrations == rows && t.mappings == maps && t.replies == replies && t.executors == sys.executors
  }

  /**
   * The first submission of a payload that nobody clashes with: its
   * registration is in the table, its mapping is SYNCED and names it, and the
   * answer is CREATED.
   */
  lemma FirstSubmissionCreates(sys: System, x: ExecutorId, p: Payload, m: MappingId, g: RegistrationId)
    requires x !in sys.executors && m !in sys.mappings && g !in sys.registrations && UnknownPayload(sys, p)
    requires forall h :: h in sys.registrations ==> !LooksLike(sys.registrations[h], p)
    requires forall h :: h in sys.registrations ==> !Clashes(sys.registrations[h], p)
    ensures var t := Run(sys, UpToCreation(x, p, m, g) + [CreateRegistration(x, g), LinkMapping(x)]);
            LeavesTables(sys, t, sys.registrations[g := Registration(p.externalId, Some(p.phone), p.email)],
                         sys.mappings[m := OwnMapping(p, Some(g), Synced)], sys.replies + {Reply(p, Created, g)})
  {
    ReachesCreation(sys, x, p, m, g);
    var s4 := Run(sys, UpToCreation(x, p, m, g));
    CreateInserts(s4, x, p, m, g);
    LinkEnds(Next(s4, CreateRegistration(x, g)), x, p, m, g, Created);
    RunConcat(sys, UpToCreation(x, p, m, g), [CreateRegistration(x, g), LinkMapping(x)]);
    RunTwo(s4, CreateRegistration(x, g), LinkMapping(x));
  }

  /** Somebody holds its phone, email or externalId already, or its data is refused: no registration, no answer. */
  lemma ClashingSubmissionConflicts(sys: System, x: ExecutorId, p: Payload, m: MappingId, g: RegistrationId,
                                    h: RegistrationId)
    requires x !in sys.executors && m !in sys.mappings && UnknownPayload(sys, p)
    requires forall k :: k in sys.registrations ==> !LooksLike(sys.registrations[k], p)
    requires h in sys.registrations && Clashes(sys.registrations[h], p)
    ensures var t := Run(sys, UpToCreation(x, p, m, g) + [CreateRegistration(x, g), MarkFailure(x)]);
            LeavesTables(sys, t, sys.registrations, sys.mappings[m := OwnMapping(p, None, Conflicted)], sys.replies)
  {
    ReachesCreation(sys, x, p, m, g);
    var s4 := Run(sys, UpToCreation(x, p, m, g));
    CreateClashes(s4, x, p, m, g, h);
    FailureEnds(Next(s4, CreateRegistration(x, g)), x, p, m, true);
    RunConcat(sys, UpToCreation(x, p, m, g), [CreateRegistration(x, g), MarkFailure(x)]);
    RunTwo(s4, CreateRegistration(x, g), MarkFailure(x));
  }

  /** Creation refused otherwise: for good, or to be tried again. */
  lemma RejectedSubmissionLeaves(sys: System, x: ExecutorId, p: Payload, m: MappingId, g: RegistrationId,
                                 permanent: bool)
    requires x !in sys.executors && m !in sys.mappings && UnknownPayload(sys, p)
    requires forall k :: k in sys.registrations ==> !LooksLike(sys.registrations[k], p)
    ensures var t := Run(sys, UpToCreation(x, p, m, g) + [RejectCreation(x, permanent), MarkFailure(x)]);
            LeavesTables(sys, t, sys.registrations,
                         sys.mappings[m := OwnMapping(p, None, if permanent then Conflicted else Pending)], sys.replies)
  {
    ReachesCreation(sys, x, p, m, g);
    var s4 := Run(sys, UpToCreation(x, p, m, g));
    var s5 := Next(s4, RejectCreation(x, permanent));
    assert s5 == s4.(executors := s4.executors[x := Executor(p, MarkingFailure(m, permanent))]);
    FailureEnds(s5, x, p, m, permanent);
    RunConcat(sys, UpToCreation(x, p, m, g), [RejectCreation(x, permanent), MarkFailure(x)]);
    RunTwo(s4, RejectCreation(x, permanent), MarkFailure(x));
  }

  /** A registration that looks like its own is taken for it and linked. */
  lemma RecognisedSubmissionIsLinked(sys: System, x: ExecutorId, p: Payload, m: MappingId, g: RegistrationId)
    requires x !in sys.executors && m !in sys.mappings && UnknownPayload(sys, p)
    requires g in sys.registrations && LooksLike(sys.registrations[g], p)
    ensures var t := Run(sys, [Submit(x, p), FindMapping(x, m), UpsertMapping(x, m)]
                              + [LookUpByExternalId(x, g), LinkMapping(x), Stop(x)]);
            LeavesTables(sys, t, sys.registrations, sys.mappings[m := OwnMapping(p, Some(g), Synced)],
                         sys.replies + {Reply(p, RecoveredExisting, g)})
  {
    FirstReachesLookup(sys, x, p, m);
    var s3 := Next(Next(Next(sys, Submit(x, p)), FindMapping(x, m)), UpsertMapping(x, m));
    var s4 := Next(s3, LookUpByExternalId(x, g));
    assert s4 == s3.(executors := s3.executors[x := Executor(p, Linking(m, g, RecoveredExisting))]);
    LinkEnds(s4, x, p, m, g, RecoveredExisting);
    RunSix(sys, [Submit(x, p), FindMapping(x, m), UpsertMapping(x, m)]
                + [LookUpByExternalId(x, g), LinkMapping(x), Stop(x)]);
    assert Next(Next(s4, LinkMapping(x)), Stop(x)).executors == sys.executors;
  }

  /** A payload that is linked already: the answer names its registration, and nothing changes. */
  lemma ResubmissionIsAnswered(sys: System, x: ExecutorId, p: Payload, m: MappingId, g: RegistrationId)
    requires x !in sys.executors && m in sys.mappings && !Stranger(sys.mappings[m], p)
    requires sys.mappings[m].qrToken == p.qrToken && sys.mappings[m].hash == p.hash
    requires sys.mappings[m].registrationId == Some(g) && g in sys.registrations
    ensures var t := Run(sys, [Submit(x, p), FindMapping(x, m), ReadRegistration(x)]);
            LeavesTables(sys, t, sys.registrations, sys.mappings, sys.replies + {Reply(p, AlreadySynced, g)})
  {
    var s2 := Next(Next(sys, Submit(x, p)), FindMapping(x, m));
    assert s2 == sys.(executors := sys.executors[x := Executor(p, ReadingRegistration(g))]);
    RunThree(sys, [Submit(x, p), FindMapping(x, m), ReadRegistration(x)]);
    assert Next(s2, ReadRegistration(x)).executors == sys.executors;
  }

  /** One of its identities under another code or signed payload: its mapping is CONFLICTED, nothing else changes. */
  lemma ChangedPayloadConflicts(sys: System, x: ExecutorId, p: Payload, m: MappingId)
    requires x !in sys.executors && m in sys.mappings && !Stranger(sys.mappings[m], p)
    requires sys.mappings[m].qrToken != p.qrToken || sys.mappings[m].hash != p.hash
    ensures var t := Run(sys, [Submit(x, p), FindMapping(x, m), MarkConflict(x)]);
            LeavesTables(sys, t, sys.registrations, sys.mappings[m := sys.mappings[m].(status := Conflicted)],
                         sys.replies)
  {
    var s2 := Next(Next(sys, Submit(x, p)), FindMapping(x, m));
    assert s2 == sys.(executors := sys.executors[x := Executor(p, MarkingConflict(m))]);
    RunThree(sys, [Submit(x, p), FindMapping(x, m), MarkConflict(x)]);
    assert Next(s2, MarkConflict(x)).executors == sys.executors;
  }
}
