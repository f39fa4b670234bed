/**
 * A request that no other overlaps: its reads and writes, sent one by one,
 * leave what its plan says, in every case.
 */
module ScanAlone {
  import opened Wrappers
  import opened ScanTables
  import opened ScanInvariants
  import opened ScanRequests
  import opened ScanOverlap

  // ----- Going on alone --------------------------------------------------

  function Go(sys: System, a: AgentId, env: Env): System { ScanOverlap.Next(sys, Advance(a, env)) }

  function Advances(sys: System, a: AgentId, env: Env, n: nat): System
    decreases n
  {
    if n == 0 then sys else Advances(Go(sys, a, env), a, env, n - 1)
  }

  /** The tables, and what the request has left to do. */
  predicate At(sys: System, a: AgentId, db: Db, todo: seq<Task>) {
    a in sys.agents && sys.db == db && sys.agents[a].todo == todo
  }

  lemma {:induction false} AdvancesAdd(sys: System, a: AgentId, env: Env, n: nat, m: nat)
    ensures Advances(sys, a, env, n + m) == Advances(Advances(sys, a, env, n), a, env, m)
    decreases n
  {
    if n > 0 { AdvancesAdd(Go(sys, a, env), a, env, n - 1, m); }
  }

  lemma AdvanceOnce(sys: System, a: AgentId, env: Env)
    ensures Advances(sys, a, env, 1) == Go(sys, a, env)
  {
    assert Advances(Go(sys, a, env), a, env, 0) == Go(sys, a, env);
  }

  lemma OthersWaitOnce(sys: System, a: AgentId, env: Env)
    ensures Go(sys, a, env).agents - {a} == sys.agents - {a}
  {
    if a in sys.agents && sys.agents[a].todo != [] {
      var after := Go(sys, a, env).agents;
      assert a in after && after == sys.agents[a := after[a]];
    }
  }

  /** One step more after some. */
  lemma OneMore(sys: System, a: AgentId, env: Env, n: nat)
    ensures Advances(sys, a, env, n + 1) == Go(Advances(sys, a, env, n), a, env)
  {
    AdvancesAdd(sys, a, env, n, 1);
    AdvanceOnce(Advances(sys, a, env, n), a, env);
  }

  lemma {:induction false} OthersWait(sys: System, a: AgentId, env: Env, n: nat)
    ensures Advances(sys, a, env, n).agents - {a} == sys.agents - {a}
    decreases n
  {
    if n > 0 {
      OthersWaitOnce(sys, a, env);
      OthersWait(Go(sys, a, env), a, env, n - 1);
    }
  }

  // ----- Writes ----------------------------------------------------------

  predicate Accepted(db: Db, writes: seq<Write>)
    decreases |writes|
  {
    writes == [] || (!Refused(db, writes[0]) && Accepted(Apply(db, writes[0]), writes[1..]))
  }

  lemma SendOne(sys: System, a: AgentId, env: Env, db: Db, w: Write, otherwise: seq<Write>, rest: seq<Task>)
    requires At(sys, a, db, [Send(w, otherwise)] + rest) && !Refused(db, w)
    ensures At(Go(sys, a, env), a, Apply(db, w), rest)
  {
    assert ([Send(w, otherwise)] + rest)[1..] == rest;
  }

  lemma {:induction false} SendAll(sys: System, a: AgentId, env: Env, db: Db, writes: seq<Write>, otherwise: seq<Write>,
                                   rest: seq<Task>)
    returns (n: nat)
    requires At(sys, a, db, Sends(writes, otherwise) + rest) && Accepted(db, writes)
    ensures At(Advances(sys, a, env, n), a, ApplyAll(db, writes), rest)
    decreases |writes|
  {
    n := 0;
    if writes == [] {
      assert Sends(writes, otherwise) + rest == rest;
    } else {
      var w, later := writes[0], Sends(writes[1..], otherwise) + rest;
      assert Sends(writes, otherwise) + rest == [Send(w, otherwise)] + later;
      SendOne(sys, a, env, db, w, otherwise, later);
      var m := SendAll(Go(sys, a, env), a, env, Apply(db, w), writes[1..], otherwise, rest);
      n := m + 1;
    }
  }

  // ----- A replay --------------------------------------------------------

  /** Up to three reads, and the request knows what to do. */
  lemma ReplayReadsAlone(sys: System, a: AgentId, env: Env, db: Db, op: OperationId, caught: bool, rest: seq<Task>)
    returns (n: nat)
    requires At(sys, a, db, [Replay(op, caught)] + rest)
    ensures At(Advances(sys, a, env, n), a, db, PlannedTasks(db, env, op, caught, rest))
  {
    UndisturbedReplayFollowsPlan(sys, a, env, op, caught, rest);
    var one := Go(sys, a, env);
    var two := Go(one, a, env);
    var planned := Goto(sys, a, PlannedTasks(db, env, op, caught, rest));
    AdvanceOnce(sys, a, env);
    OneMore(sys, a, env, 1);
    OneMore(sys, a, env, 2);
    n := if planned == one then 1 else if planned == two then 2 else 3;
    assert Advances(sys, a, env, n) == planned;
  }

  /** The transaction of a replay and the update after it. */
  lemma MakeAlone(sys: System, a: AgentId, env: Env, db: Db, op: OperationId, caught: bool, rest: seq<Task>)
    requires MakesMovement(db, env, op)
    requires var (writes, throws) := PlanProcess(db, env, op);
             |writes| == 2 && At(sys, a, db, [Make(writes[0], op, caught, throws)] + rest)
    ensures var (writes, throws) := PlanProcess(db, env, op);
            At(Go(Go(sys, a, env), a, env), a, DbAfter(db, env, op), TodoAfter(db, env, op, caught, rest))
  {
    var (writes, throws) := PlanProcess(db, env, op);
    var made, later := Apply(db, writes[0]), TodoAfter(db, env, op, caught, rest);
    MadeRow(db, env, op);
    MakeSends(sys, a, env, db, writes[0], op, caught, throws, rest);
    SendOne(Go(sys, a, env), a, env, made, writes[1], [], later);
    TwoWrites(db, writes[0], writes[1]);
    assert writes == [writes[0], writes[1]];
  }

  lemma MakeSends(sys: System, a: AgentId, env: Env, db: Db, w: Write, op: OperationId, caught: bool, throws: bool,
                  rest: seq<Task>)
    requires At(sys, a, db, [Make(w, op, caught, throws)] + rest)
    requires !Refused(db, w) && (w.InsertProcessed? || w.UpdateProcessed?)
    requires var made := Apply(db, w); op in made.raws && made.raws[op].rowId in made.movements
    ensures At(Go(sys, a, env), a, Apply(db, w), AfterMake(Apply(db, w), w, op, caught, throws, rest))
  {
    assert ([Make(w, op, caught, throws)] + rest)[1..] == rest;
  }

  lemma MadeRow(db: Db, env: Env, op: OperationId)
    requires MakesMovement(db, env, op)
    ensures var (writes, throws) := PlanProcess(db, env, op);
            && |writes| == 2 && (writes[0].InsertProcessed? || writes[0].UpdateProcessed?)
            && !Refused(db, writes[0]) && !Refused(Apply(db, writes[0]), writes[1])
            && var made := Apply(db, writes[0]);
               && op in made.raws && made.raws[op].rowId in made.movements
               && writes[1] == FinishOffline(op, Some(writes[0].decision.registrationId), made.raws[op].rowId,
                                             made.movements[made.raws[op].rowId].id)
  {
  }

  function DbAfter(db: Db, env: Env, op: OperationId): Db { ApplyAll(db, PlanProcess(db, env, op).0) }

  function TodoAfter(db: Db, env: Env, op: OperationId, caught: bool, rest: seq<Task>): seq<Task> {
    if PlanProcess(db, env, op).1 then AfterThrow(op, caught, rest) else rest
  }

  lemma PlannedAlone(sys: System, a: AgentId, env: Env, db: Db, op: OperationId, caught: bool, rest: seq<Task>)
    returns (n: nat)
    requires At(sys, a, db, PlannedTasks(db, env, op, caught, rest))
    ensures At(Advances(sys, a, env, n), a, DbAfter(db, env, op), TodoAfter(db, env, op, caught, rest))
  {
    n := 0;
    if MakesMovement(db, env, op) {
      MadeRow(db, env, op);
      MakeAlone(sys, a, env, db, op, caught, rest);
      OneMore(sys, a, env, 0);
      OneMore(sys, a, env, 1);
      n := 2;
    } else {
      OtherReplaysSend(db, env, op);
      if !PlanProcess(db, env, op).1 {
        n := SendAll(sys, a, env, db, PlanProcess(db, env, op).0, [], rest);
      }
    }
  }

  lemma ReplayAlone(sys: System, a: AgentId, env: Env, db: Db, op: OperationId, caught: bool, rest: seq<Task>)
    returns (n: nat)
    requires At(sys, a, db, [Replay(op, caught)] + rest)
    ensures At(Advances(sys, a, env, n), a, DbAfter(db, env, op), TodoAfter(db, env, op, caught, rest))
  {
    n := ReplayReadsAlone(sys, a, env, db, op, caught, rest);
    var m := PlannedAlone(Advances(sys, a, env, n), a, env, db, op, caught, rest);
    AdvancesAdd(sys, a, env, n, m);
    n := n + m;
  }

  lemma OtherReplaysSend(db: Db, env: Env, op: OperationId)
    requires !MakesMovement(db, env, op)
    ensures var (writes, throws) := PlanProcess(db, env, op);
            |writes| <= 1 && Accepted(db, writes) && (throws ==> writes == [])
  {
  }

  // ----- Reconciliation --------------------------------------------------

  lemma {:induction false} OfflineStays(db: Db, writes: seq<Write>)
    ensures db.offline.Keys <= ApplyAll(db, writes).offline.Keys
    decreases |writes|
  {
    if writes != [] { OfflineStays(Apply(db, writes[0]), writes[1..]); }
  }

  function TurnDb(db: Db, env: Env, op: OperationId, g: RegistrationId): Db {
    ApplyAll(db, PlanTurn(db, env, op, g))
  }

  predicate AllOffline(db: Db, order: seq<OperationId>) { forall i :: 0 <= i < |order| ==> order[i] in db.offline }

  lemma TurnKeepsOffline(db: Db, env: Env, order: seq<OperationId>, g: RegistrationId)
    requires order != [] && AllOffline(db, order)
    ensures AllOffline(TurnDb(db, env, order[0], g), order[1..])
  {
    OfflineStays(db, PlanTurn(db, env, order[0], g));
  }

  lemma TurnAlone(sys: System, a: AgentId, env: Env, db: Db, op: OperationId, g: RegistrationId, rest: seq<Task>)
    returns (n: nat)
    requires op in db.offline && At(sys, a, db, [Send(LinkOffline(op, g, None), []), Replay(op, true)] + rest)
    ensures At(Advances(sys, a, env, n), a, TurnDb(db, env, op, g), rest)
  {
    var link := LinkOffline(op, g, None);
    var linked := Apply(db, link);
    assert [Send(link, []), Replay(op, true)] + rest == [Send(link, [])] + ([Replay(op, true)] + rest);
    SendOne(sys, a, env, db, link, [], [Replay(op, true)] + rest);
    var one := Go(sys, a, env);
    var m := ReplayAlone(one, a, env, linked, op, true, rest);
    n := m + 1;
    TurnInSteps(db, env, op, g);
    if PlanProcess(linked, env, op).1 {
      OfflineStays(linked, PlanProcess(linked, env, op).0);
      SendOne(Advances(sys, a, env, n), a, env, DbAfter(linked, env, op), FailOffline(op), [], rest);
      OneMore(sys, a, env, n);
      n := n + 1;
    }
  }

  lemma TurnsUnfold(order: seq<OperationId>, g: RegistrationId)
    requires order != []
    ensures Turns(order, g) == [Send(LinkOffline(order[0], g, None), []), Replay(order[0], true)] + Turns(order[1..], g)
  {
  }

  /** Some steps, and then some more. */
  lemma Compose(sys: System, a: AgentId, env: Env, n: nat, m: nat, db: Db, todo: seq<Task>)
    requires At(Advances(Advances(sys, a, env, n), a, env, m), a, db, todo)
    ensures At(Advances(sys, a, env, n + m), a, db, todo)
  {
    AdvancesAdd(sys, a, env, n, m);
  }

  lemma {:induction false} TurnsAlone(sys: System, a: AgentId, env: Env, db: Db, order: seq<OperationId>,
                                      g: RegistrationId, final: Db)
    returns (n: nat)
    requires At(sys, a, db, Turns(order, g)) && AllOffline(db, order)
    requires final == Reconciled(db, env, order, g)
    ensures At(Advances(sys, a, env, n), a, final, [])
    decreases |order|, 1
  {
    if order == [] {
      n := 0;
    } else {
      TurnsUnfold(order, g);
      TurnKeepsOffline(db, env, order, g);
      TurnThenRest(db, env, order, g);
      n := TurnsGoOn(sys, a, env, db, order, g, final);
    }
  }

  lemma {:induction false} TurnsGoOn(sys: System, a: AgentId, env: Env, db: Db, order: seq<OperationId>,
                                     g: RegistrationId, final: Db)
    returns (n: nat)
    requires order != [] && order[0] in db.offline
    requires At(sys, a, db, [Send(LinkOffline(order[0], g, None), []), Replay(order[0], true)] + Turns(order[1..], g))
    requires AllOffline(TurnDb(db, env, order[0], g), order[1..])
    requires final == Reconciled(TurnDb(db, env, order[0], g), env, order[1..], g)
    ensures At(Advances(sys, a, env, n), a, final, [])
    decreases |order|, 0
  {
    n := TurnAlone(sys, a, env, db, order[0], g, Turns(order[1..], g));
    var m := TurnsAlone(Advances(sys, a, env, n), a, env, TurnDb(db, env, order[0], g), order[1..], g, final);
    Compose(sys, a, env, n, m, final, []);
    n := n + m;
  }

  // ----- The other requests ----------------------------------------------

  lemma ScanIsAccepted(db: Db, env: Env, scan: Scan)
    requires scan.operationId !in db.raws
    ensures Accepted(db, PlanScan(db, env, scan))
  {
  }

  lemma CheckAlone(sys: System, a: AgentId, env: Env, db: Db, scan: Scan)
    returns (n: nat)
    requires At(sys, a, db, [Check(scan)]) && scan.operationId !in db.raws
    ensures At(Advances(sys, a, env, n), a, ApplyAll(db, PlanScan(db, env, scan)), [])
  {
    var checked := Go(sys, a, env);
    ScanIsAccepted(db, env, scan);
    var m := SendAll(checked, a, env, db, PlanScan(db, env, scan), [], []);
    n := m + 1;
  }

  lemma IngestAlone(sys: System, a: AgentId, env: Env, db: Db, scan: Scan)
    returns (n: nat)
    requires At(sys, a, db, Tasks(db, env, Ingest(scan)))
    ensures At(Advances(sys, a, env, n), a, ApplyAll(db, PlanIngest(db, env, scan)), [])
  {
    var op := scan.operationId;
    n := 0;
    if op !in db.raws {
      n := CheckAlone(sys, a, env, db, scan);
    } else if Retryable(db, op) {
      var delete := DeleteRaw(op);
      var freed := Apply(db, delete);
      assert [Send(delete, []), Check(scan)] == [Send(delete, [])] + [Check(scan)];
      SendOne(sys, a, env, db, delete, [], [Check(scan)]);
      var m := CheckAlone(Go(sys, a, env), a, env, freed, scan);
      var planned := PlanScan(freed, env, scan);
      assert ([delete] + planned)[1..] == planned;
      n := m + 1;
    }
  }

  lemma WorkIsAccepted(db: Db, env: Env, op: OperationId)
    requires op in db.raws && db.raws[op].rowId !in db.movements
    ensures Accepted(db, PlanWork(db, env, op, db.raws[op].scan))
  {
    var plan := PlanWork(db, env, op, db.raws[op].scan);
    WorkStarts(db, env, op);
    UpdatesAreAccepted(Apply(db, plan[0]), op, plan[1..]);
  }

  /** After its first write the worker only updates its raw scan. */
  lemma WorkStarts(db: Db, env: Env, op: OperationId)
    requires op in db.raws && db.raws[op].rowId !in db.movements
    ensures var plan := PlanWork(db, env, op, db.raws[op].scan);
            && plan != [] && !Refused(db, plan[0]) && op in Apply(db, plan[0]).raws
            && forall i :: 1 <= i < |plan| ==> plan[i].UpdateRaw? && plan[i].operationId == op
  {
  }

  lemma {:induction false} UpdatesAreAccepted(db: Db, op: OperationId, writes: seq<Write>)
    requires op in db.raws && forall i :: 0 <= i < |writes| ==> writes[i].UpdateRaw? && writes[i].operationId == op
    ensures Accepted(db, writes)
    decreases |writes|
  {
    if writes != [] { UpdatesAreAccepted(Apply(db, writes[0]), op, writes[1..]); }
  }

  lemma WorkAlone(sys: System, a: AgentId, env: Env, db: Db, op: OperationId, rowId: nat)
    returns (n: nat)
    requires Inv(db) && At(sys, a, db, Tasks(db, env, ProcessRawScan(op, rowId)))
    ensures At(Advances(sys, a, env, n), a, ApplyAll(db, PlanProcessRaw(db, env, op, rowId)), [])
  {
    n := 0;
    if AwaitsWork(db, op, rowId) {
      var scan := db.raws[op].scan;
      WorkIsAccepted(db, env, op);
      var m := SendAll(Go(sys, a, env), a, env, db, PlanWork(db, env, op, scan), MarkFailed(op), []);
      n := m + 1;
    }
  }

  lemma UploadAlone(sys: System, a: AgentId, env: Env, db: Db, u: Upload)
    returns (n: nat)
    requires At(sys, a, db, Tasks(db, env, IngestOffline(u)))
    ensures At(Advances(sys, a, env, n), a, ApplyAll(db, PlanOffline(db, env, u)), [])
  {
    var plan, op := PlanOffline(db, env, u), u.operationId;
    n := 0;
    if plan != [] {
      var first := Apply(db, plan[0]);
      var later := if |UploadTasks(db, env, u)| == 2 then [Replay(op, false)] else [];
      assert UploadTasks(db, env, u) == [Send(plan[0], [])] + later;
      SendOne(sys, a, env, db, plan[0], [], later);
      var sent := Go(sys, a, env);
      AdvanceOnce(sys, a, env);
      n := 1;
      if later != [] {
        var m := ReplayAlone(sent, a, env, first, op, false, []);
        assert plan[1..] == PlanProcess(first, env, op).0;
        n := m + 1;
      } else {
        assert plan[1..] == [];
      }
    }
  }

  lemma FastAlone(sys: System, a: AgentId, env: Env, db: Db, scan: Scan)
    returns (n: nat)
    requires At(sys, a, db, Tasks(db, env, IngestFast(scan)))
    ensures At(Advances(sys, a, env, n), a, ApplyAll(db, PlanIngestFast(db, scan)), [])
  {
    var plan := PlanIngestFast(db, scan);
    assert Sends(plan, []) + [] == Sends(plan, []);
    n := SendAll(sys, a, env, db, plan, [], []);
  }

  /**
   * Every request that goes on alone comes to its end, and then the tables are
   * what its plan makes of those it began with; no other request has moved.
   */
  lemma AloneFollowsPlan(sys: System, a: AgentId, env: Env, r: Request)
    requires Inv(sys.db) && a !in sys.agents && Answers(sys.db, r)
    ensures exists n: nat ::
              var after := Advances(ScanOverlap.Next(sys, Begin(a, env, r)), a, env, n);
              At(after, a, ApplyAll(sys.db, Plan(sys.db, env, r)), []) && after.agents - {a} == sys.agents
  {
    var begun := ScanOverlap.Next(sys, Begin(a, env, r));
    var n: nat;
    match r {
      case Ingest(scan) => n := IngestAlone(begun, a, env, sys.db, scan);
      case IngestFast(scan) => n := FastAlone(begun, a, env, sys.db, scan);
      case ProcessRawScan(op, rowId) => n := WorkAlone(begun, a, env, sys.db, op, rowId);
      case IngestOffline(u) => n := UploadAlone(begun, a, env, sys.db, u);
      case Reconcile(_, _, _, g, order) =>
        n := TurnsAlone(begun, a, env, sys.db, order, g, Reconciled(sys.db, env, order, g));
    }
    OthersWait(begun, a, env, n);
    assert begun.agents - {a} == sys.agents;
    assert At(Advances(begun, a, env, n), a, ApplyAll(sys.db, Plan(sys.db, env, r)), []);
  }
}
