/**
 * The five requests overlapping. Each reads the scan tables at its own moments,
 * whatever it decides by the other tables may change from one moment to the
 * next, and it sends its writes one by one, with the writes of others in
 * between. Ids are those the transactions returned.
 */
module ScanOverlap {
  import opened Wrappers
  import opened ScanTables
  import opened ScanInvariants
  import opened ScanRequests

  type AgentId = nat

  /**
   * What a request has still to do: send a write it has decided on, with what it
   * sends instead of the rest when that is refused; decide about a scan, as
   * direct ingestion or as the worker; replay an offline operation, which is to
   * read its row, look for its raw scan, and judge; or run the transaction so
   * decided on. `caught` tells whether the request catches what a replay throws.
   */
  datatype Task =
    | Send(write: Write, otherwise: seq<Write>)
    | Check(scan: Scan)
    | Work(operationId: OperationId, scan: Scan)
    | Replay(operationId: OperationId, caught: bool)
    | FindRaw(operationId: OperationId, row: OfflineScan, caught: bool)
    | Judge(operationId: OperationId, row: OfflineScan, found: bool, caught: bool)
    | Make(write: Write, operationId: OperationId, caught: bool, throws: bool)

  /** `checkedAt` is the moment the request read the status of the operations in `checked`. */
  datatype Agent = Agent(checkedAt: nat, checked: set<OperationId>, todo: seq<Task>)

  /** `log` holds the writes in the order they reached the tables, `checks` the moment of each sender's check. */
  datatype System = System(db: Db, agents: map<AgentId, Agent>, log: seq<Write>, checks: seq<nat>)

  datatype Step =
    | Begin(agent: AgentId, env: Env, request: Request)
    | Advance(agent: AgentId, env: Env)
    | Stop(agent: AgentId)

  function Sends(writes: seq<Write>, otherwise: seq<Write>): seq<Task> {
    if writes == [] then [] else [Send(writes[0], otherwise)] + Sends(writes[1..], otherwise)
  }

  function Turns(order: seq<OperationId>, g: RegistrationId): seq<Task> {
    if order == [] then []
    else [Send(LinkOffline(order[0], g, None), []), Replay(order[0], true)] + Turns(order[1..], g)
  }

  /** An upload that links or stores its operation goes on to replay it when the mapping is linked. */
  function UploadTasks(db: Db, env: Env, u: Upload): seq<Task> {
    var plan := PlanOffline(db, env, u);
    if plan == [] then []
    else if plan[0].ConflictOffline? || LinkedTo(env, env.signed[u.signedQr].qrToken).None? then [Send(plan[0], [])]
    else [Send(plan[0], []), Replay(u.operationId, false)]
  }

  /** What a request sets out to do after its first read of the scan tables. */
  function Tasks(db: Db, env: Env, r: Request): seq<Task> {
    match r
    case Ingest(scan) =>
      if scan.operationId !in db.raws then [Check(scan)]
      else if !Retryable(db, scan.operationId) then []
      else [Send(DeleteRaw(scan.operationId), []), Check(scan)]
    case IngestFast(scan) => Sends(PlanIngestFast(db, scan), [])
    case ProcessRawScan(op, rowId) => if AwaitsWork(db, op, rowId) then [Work(op, db.raws[op].scan)] else []
    case IngestOffline(u) => if UploadAccepted(env, u) then UploadTasks(db, env, u) else []
    case Reconcile(_, _, _, g, order) => Turns(order, g)
  }

  predicate ConflictedIn(db: Db, op: OperationId) { op in db.offline && db.offline[op].status == Conflicted }

  /** The operations whose status the request has found to allow processing. */
  function CheckedBy(db: Db, r: Request): set<OperationId> {
    match r
    case IngestOffline(u) => if ConflictedIn(db, u.operationId) then {} else {u.operationId}
    case Reconcile(_, _, _, _, order) => set op | op in order
    case _ => {}
  }

  function Log(sys: System, a: AgentId, w: Write, todo: seq<Task>): System
    requires a in sys.agents
  {
    System(Apply(sys.db, w), sys.agents[a := sys.agents[a].(todo := todo)], sys.log + [w],
           sys.checks + [sys.agents[a].checkedAt])
  }

  function Goto(sys: System, a: AgentId, todo: seq<Task>): System
    requires a in sys.agents
  {
    sys.(agents := sys.agents[a := sys.agents[a].(todo := todo)])
  }

  /** The write would repeat a unique key, or its row is gone or held by a movement. */
  predicate Refused(db: Db, w: Write) {
    match w
    case InsertRaw(scan, _, _, _, _, _) => scan.operationId in db.raws
    case DeleteRaw(op) => op !in db.raws || db.raws[op].rowId in db.movements
    case UpdateRaw(op, _, _, _, _, _) => op !in db.raws
    case InsertProcessed(scan, _) => scan.operationId in db.raws
    case UpdateProcessed(op, _) => op !in db.raws || db.raws[op].rowId in db.movements
    case InsertOffline(op, _) => op in db.offline
    case _ => w.operationId !in db.offline
  }

  /** After a throw: the reconciliation loop marks the operation and goes on, any other request ends. */
  function AfterThrow(op: OperationId, caught: bool, rest: seq<Task>): seq<Task> {
    if caught then [Send(FailOffline(op), [])] + rest else []
  }

  predicate IsDone(o: OfflineScan) { o.status == Processed && o.movementId.Some? }

  function AfterRowRead(db: Db, op: OperationId, caught: bool, rest: seq<Task>): seq<Task> {
    if op !in db.offline then AfterThrow(op, caught, rest)
    else if IsDone(db.offline[op]) then rest
    else [FindRaw(op, db.offline[op], caught)] + rest
  }

  function AfterRawRead(db: Db, op: OperationId, o: OfflineScan, caught: bool, rest: seq<Task>): seq<Task> {
    if MovementOf(db, op).Some?
    then
      var raw := db.raws[op];
      [Send(FinishOffline(op, raw.registrationId, raw.rowId, MovementOf(db, op).value.id), [])] + rest
    else [Judge(op, o, op in db.raws, caught)] + rest
  }

  function AfterJudging(db: Db, env: Env, op: OperationId, o: OfflineScan, found: bool, caught: bool,
                        rest: seq<Task>): seq<Task>
  {
    if ContextOf(env, o).Unlinked? then rest
    else if ContextOf(env, o).NoToken? || !ReplayChecksPass(env, o) then AfterThrow(op, caught, rest)
    else
      var d := ReplayDecision(db, env, o);
      var w := if found then UpdateProcessed(op, d) else InsertProcessed(ScanOf(op, o), d);
      [Make(w, op, caught, op in env.untouched)] + rest
  }

  function AfterMake(made: Db, w: Write, op: OperationId, caught: bool, throws: bool, rest: seq<Task>): seq<Task>
    requires (w.InsertProcessed? || w.UpdateProcessed?) && op in made.raws && made.raws[op].rowId in made.movements
  {
    var rowId := made.raws[op].rowId;
    [Send(FinishOffline(op, Some(w.decision.registrationId), rowId, made.movements[rowId].id), [])]
    + if throws then AfterThrow(op, caught, rest) else rest
  }

  function Next(sys: System, step: Step): System {
    match step
    case Begin(a, env, r) =>
      if a in sys.agents || !Answers(sys.db, r) then sys
      else sys.(agents := sys.agents[a := Agent(|sys.log|, CheckedBy(sys.db, r), Tasks(sys.db, env, r))])
    case Stop(a) => sys.(agents := sys.agents - {a})
    case Advance(a, env) =>
      if a !in sys.agents || sys.agents[a].todo == [] then sys
      else
        var rest := sys.agents[a].todo[1..];
        match sys.agents[a].todo[0]
        case Send(w, otherwise) => Log(sys, a, w, if Refused(sys.db, w) then Sends(otherwise, []) else rest)
        case Check(scan) => Goto(sys, a, Sends(PlanScan(sys.db, env, scan), []) + rest)
        case Work(op, scan) => Goto(sys, a, Sends(PlanWork(sys.db, env, op, scan), MarkFailed(op)) + rest)
        case Replay(op, caught) => Goto(sys, a, AfterRowRead(sys.db, op, caught, rest))
        case FindRaw(op, o, caught) => Goto(sys, a, AfterRawRead(sys.db, op, o, caught, rest))
        case Judge(op, o, found, caught) => Goto(sys, a, AfterJudging(sys.db, env, op, o, found, caught, rest))
        case Make(w, op, caught, throws) =>
          var made := Apply(sys.db, w);
          if Refused(sys.db, w) || !(w.InsertProcessed? || w.UpdateProcessed?) || MovementOf(made, op).None?
          then Log(sys, a, w, AfterThrow(op, caught, rest))
          else Log(sys, a, w, AfterMake(made, w, op, caught, throws, rest))
  }

  function Run(sys: System, steps: seq<Step>): System
    decreases |steps|
  {
    if steps == [] then sys else Run(Next(sys, steps[0]), steps[1..])
  }

  function Opened(db: Db): System { System(db, map[], [], []) }

  /** What the plan of a replay taken alone leaves to do. */
  function PlannedTasks(db: Db, env: Env, op: OperationId, caught: bool, rest: seq<Task>): seq<Task> {
    var (writes, throws) := PlanProcess(db, env, op);
    if |writes| == 2 then [Make(writes[0], op, caught, throws)] + rest
    else if throws then AfterThrow(op, caught, rest)
    else Sends(writes, []) + rest
  }

  lemma ReadsFollowPlan(db: Db, env: Env, op: OperationId, caught: bool, rest: seq<Task>)
    ensures op !in db.offline || IsDone(db.offline[op]) ==>
              AfterRowRead(db, op, caught, rest) == PlannedTasks(db, env, op, caught, rest)
    ensures op in db.offline && !IsDone(db.offline[op]) ==>
              && AfterRowRead(db, op, caught, rest) == [FindRaw(op, db.offline[op], caught)] + rest
              && if MovementOf(db, op).Some?
                 then AfterRawRead(db, op, db.offline[op], caught, rest) == PlannedTasks(db, env, op, caught, rest)
                 else
                   && AfterRawRead(db, op, db.offline[op], caught, rest) ==
                      [Judge(op, db.offline[op], op in db.raws, caught)] + rest
                   && AfterJudging(db, env, op, db.offline[op], op in db.raws, caught, rest) ==
                      PlannedTasks(db, env, op, caught, rest)
  {
    if op in db.offline && MovementOf(db, op).Some? {
      var raw := db.raws[op];
      OneSend(FinishOffline(op, raw.registrationId, raw.rowId, MovementOf(db, op).value.id));
    }
  }

  lemma OneSend(w: Write)
    ensures Sends([w], []) == [Send(w, [])]
  {
    assert [w][1..] == [];
  }

  /** When the three reads of a replay see the same tables, it sets out to do what its plan says. */
  lemma UndisturbedReplayFollowsPlan(sys: System, a: AgentId, env: Env, op: OperationId, caught: bool, rest: seq<Task>)
    requires a in sys.agents && sys.agents[a].todo == [Replay(op, caught)] + rest
    ensures var one := Next(sys, Advance(a, env));
            var two := Next(one, Advance(a, env));
            Goto(sys, a, PlannedTasks(sys.db, env, op, caught, rest)) in {one, two, Next(two, Advance(a, env))}
  {
    var db, one := sys.db, Next(sys, Advance(a, env));
    ReadsFollowPlan(db, env, op, caught, rest);
    assert one == Goto(sys, a, AfterRowRead(db, op, caught, rest));
    if op in db.offline && !IsDone(db.offline[op]) {
      var o := db.offline[op];
      ReadOn(sys, a, env, FindRaw(op, o, caught), rest, AfterRawRead(db, op, o, caught, rest));
      if MovementOf(db, op).None? {
        var f := op in db.raws;
        ReadOn(sys, a, env, Judge(op, o, f, caught), rest, AfterJudging(db, env, op, o, f, caught, rest));
      }
    }
  }

  lemma ReadOn(sys: System, a: AgentId, env: Env, t: Task, rest: seq<Task>, after: seq<Task>)
    requires a in sys.agents && (t.FindRaw? || t.Judge?)
    requires after == if t.FindRaw? then AfterRawRead(sys.db, t.operationId, t.row, t.caught, rest)
                      else AfterJudging(sys.db, env, t.operationId, t.row, t.found, t.caught, rest)
    ensures Next(Goto(sys, a, [t] + rest), Advance(a, env)) == Goto(sys, a, after)
  {
    assert ([t] + rest)[1..] == rest;
  }

  // ----- The invariant ---------------------------------------------------

  predicate Rewrites(w: Write) { w.LinkOffline? || w.FailOffline? || w.FinishOffline? }

  predicate Cleared(db: Db, w: Write) { Rewrites(w) ==> !ConflictedIn(db, w.operationId) }

  /** Every write is well formed, backed when it arrives, and was cleared by a check made before. */
  ghost predicate LogInv(start: Db, log: seq<Write>, checks: seq<nat>) {
    && |checks| == |log|
    && forall k :: 0 <= k < |log| ==> Logged(start, log, checks, k)
  }

  predicate Logged(start: Db, log: seq<Write>, checks: seq<nat>, k: nat)
    requires |checks| == |log| && k < |log|
  {
    && checks[k] <= k && WellFormed(log[k]) && Backed(After(start, log, k), log[k])
    && Cleared(After(start, log, checks[k]), log[k])
  }

  predicate TaskInv(db: Db, checked: set<OperationId>, t: Task) {
    match t
    case Send(w, otherwise) =>
      && WellFormed(w) && Backed(db, w) && (Rewrites(w) ==> w.operationId in checked)
      && forall v :: v in otherwise ==> v.UpdateRaw? && WellFormed(v)
    case Check(_) => true
    case Work(_, _) => true
    case Make(w, op, _, _) => (w.InsertProcessed? || w.UpdateProcessed?) && Target(w) == op && op in checked
    case _ => t.operationId in checked
  }

  ghost predicate AgentInv(start: Db, log: seq<Write>, db: Db, agent: Agent) {
    && agent.checkedAt <= |log|
    && (forall op :: op in agent.checked ==> !ConflictedIn(After(start, log, agent.checkedAt), op))
    && forall t :: t in agent.todo ==> TaskInv(db, agent.checked, t)
  }

  ghost predicate SysInv(start: Db, sys: System) {
    && Inv(sys.db) && sys.db == After(start, sys.log, |sys.log|) && LogInv(start, sys.log, sys.checks)
    && forall a :: a in sys.agents ==> AgentInv(start, sys.log, sys.db, sys.agents[a])
  }

  lemma AfterPrefix(start: Db, log: seq<Write>, w: Write, k: nat)
    requires k <= |log|
    ensures After(start, log + [w], k) == After(start, log, k)
  {
    assert (log + [w])[..k] == log[..k];
  }

  lemma AfterWhole(start: Db, log: seq<Write>, w: Write)
    ensures After(start, log + [w], |log| + 1) == Apply(After(start, log, |log|), w)
  {
    AfterStep(start, log + [w], |log|);
    AfterPrefix(start, log, w, |log|);
  }

  lemma TaskStays(db: Db, w: Write, checked: set<OperationId>, t: Task)
    requires Inv(db) && TaskInv(db, checked, t)
    ensures TaskInv(Apply(db, w), checked, t)
  {
    if t.Send? && t.write.FinishOffline? {
      OwnMovementStays(db, w, t.write.operationId, t.write.rawRowId, t.write.movementId);
    }
  }

  lemma AgentStays(start: Db, log: seq<Write>, db: Db, w: Write, agent: Agent)
    requires Inv(db) && AgentInv(start, log, db, agent)
    ensures AgentInv(start, log + [w], Apply(db, w), agent)
  {
    AfterPrefix(start, log, w, agent.checkedAt);
    forall t | t in agent.todo ensures TaskInv(Apply(db, w), agent.checked, t) { TaskStays(db, w, agent.checked, t); }
  }

  lemma LogGrows(start: Db, log: seq<Write>, checks: seq<nat>, w: Write, read: nat)
    requires LogInv(start, log, checks) && read <= |log| && WellFormed(w) && Backed(After(start, log, |log|), w)
    requires Cleared(After(start, log, read), w)
    ensures LogInv(start, log + [w], checks + [read])
  {
    var log2, checks2 := log + [w], checks + [read];
    forall k | 0 <= k < |log2| ensures Logged(start, log2, checks2, k) {
      AfterPrefix(start, log, w, k);
      if k < |log| {
        assert Logged(start, log, checks, k);
        AfterPrefix(start, log, w, checks[k]);
        assert log2[k] == log[k] && checks2[k] == checks[k];
      } else {
        AfterPrefix(start, log, w, read);
      }
    }
  }

  /** One write of an agent, which then goes on with tasks that are fit for the new tables. */
  lemma LogKeepsInv(start: Db, sys: System, a: AgentId, w: Write, todo: seq<Task>)
    requires SysInv(start, sys) && a in sys.agents && WellFormed(w) && Backed(sys.db, w)
    requires Rewrites(w) ==> w.operationId in sys.agents[a].checked
    requires forall t :: t in todo ==> TaskInv(Apply(sys.db, w), sys.agents[a].checked, t)
    ensures SysInv(start, Log(sys, a, w, todo))
  {
    var agent := sys.agents[a];
    assert AgentInv(start, sys.log, sys.db, agent);
    ApplyKeepsInv(sys.db, w);
    AfterWhole(start, sys.log, w);
    LogGrows(start, sys.log, sys.checks, w, agent.checkedAt);
    var t := Log(sys, a, w, todo);
    forall b | b in t.agents ensures AgentInv(start, t.log, t.db, t.agents[b]) {
      if b != a { AgentStays(start, sys.log, sys.db, w, sys.agents[b]); }
      else { AgentStays(start, sys.log, sys.db, w, agent); }
    }
  }

  lemma GotoKeepsInv(start: Db, sys: System, a: AgentId, todo: seq<Task>)
    requires SysInv(start, sys) && a in sys.agents
    requires forall t :: t in todo ==> TaskInv(sys.db, sys.agents[a].checked, t)
    ensures SysInv(start, Goto(sys, a, todo))
  {
  }

  lemma {:induction false} SendsAre(writes: seq<Write>, otherwise: seq<Write>, t: Task)
    requires t in Sends(writes, otherwise)
    ensures t.Send? && t.write in writes && t.otherwise == otherwise
  {
    if t != Send(writes[0], otherwise) { SendsAre(writes[1..], otherwise, t); }
  }

  lemma {:induction false} TurnsAre(order: seq<OperationId>, g: RegistrationId, t: Task)
    requires t in Turns(order, g)
    ensures (t.Send? && t.write.LinkOffline? && t.write.operationId in order && t.otherwise == [])
            || (t.Replay? && t.operationId in order)
  {
    if t !in [Send(LinkOffline(order[0], g, None), []), Replay(order[0], true)] { TurnsAre(order[1..], g, t); }
  }

  /** Ingestion, fast or direct, and the worker neither touch the status of an offline operation nor send an id. */
  predicate Plain(w: Write) { WellFormed(w) && !Rewrites(w) }

  lemma DirectPlan(db: Db, env: Env, scan: Scan, w: Write)
    requires w in PlanScan(db, env, scan)
    ensures Plain(w)
  {
  }

  lemma WorkerPlan(db: Db, env: Env, op: OperationId, scan: Scan, w: Write)
    requires w in PlanWork(db, env, op, scan)
    ensures Plain(w)
  {
  }

  lemma FirstTasks(db: Db, env: Env, r: Request, t: Task)
    requires t in Tasks(db, env, r)
    ensures TaskInv(db, CheckedBy(db, r), t)
  {
    match r
    case IngestFast(scan) => SendsAre(PlanIngestFast(db, scan), [], t);
    case Reconcile(_, _, _, g, order) => TurnsAre(order, g, t);
    case _ =>
  }

  lemma CheckedAreOpen(db: Db, r: Request, op: OperationId)
    requires Answers(db, r)
    ensures op in CheckedBy(db, r) ==> !ConflictedIn(db, op)
  {
    if r.Reconcile? && op in r.order {
      var i :| 0 <= i < |r.order| && r.order[i] == op;
      assert Waiting(db, r.eventId, r.qrToken, r.registrationOperationId, r.order[i]);
    }
  }

  lemma BeginKeepsInv(start: Db, sys: System, a: AgentId, env: Env, r: Request)
    requires SysInv(start, sys) && a !in sys.agents && Answers(sys.db, r)
    ensures SysInv(start, Next(sys, Begin(a, env, r)))
  {
    var agent := Agent(|sys.log|, CheckedBy(sys.db, r), Tasks(sys.db, env, r));
    forall op | op in agent.checked ensures !ConflictedIn(sys.db, op) { CheckedAreOpen(sys.db, r, op); }
    forall t | t in agent.todo ensures TaskInv(sys.db, agent.checked, t) { FirstTasks(sys.db, env, r, t); }
    assert AgentInv(start, sys.log, sys.db, agent);
  }

  /** The tasks that only read, and what an agent goes on with after one. */
  predicate Reads(t: Task) { !t.Send? && !t.Make? }

  lemma ReplayReads(db: Db, env: Env, checked: set<OperationId>, t: Task, rest: seq<Task>, next: Task)
    requires (t.Replay? || t.FindRaw? || t.Judge?) && TaskInv(db, checked, t)
    requires match t
      case Replay(op, caught) => next in AfterRowRead(db, op, caught, rest)
      case FindRaw(op, o, caught) => next in AfterRawRead(db, op, o, caught, rest)
      case Judge(op, o, found, caught) => next in AfterJudging(db, env, op, o, found, caught, rest)
    ensures next in rest || TaskInv(db, checked, next)
  {
  }

  lemma ReadKeepsInv(start: Db, sys: System, a: AgentId, env: Env)
    requires SysInv(start, sys) && a in sys.agents && sys.agents[a].todo != [] && Reads(sys.agents[a].todo[0])
    ensures SysInv(start, Next(sys, Advance(a, env)))
  {
    var agent := sys.agents[a];
    var task, rest := agent.todo[0], agent.todo[1..];
    assert TaskInv(sys.db, agent.checked, task);
    var todo := Next(sys, Advance(a, env)).agents[a].todo;
    forall t | t in todo ensures TaskInv(sys.db, agent.checked, t) {
      if t in rest {
        assert t in agent.todo;
      } else {
        match task
        case Check(scan) =>
          SendsAre(PlanScan(sys.db, env, scan), [], t);
          DirectPlan(sys.db, env, scan, t.write);
        case Work(op, scan) =>
          SendsAre(PlanWork(sys.db, env, op, scan), MarkFailed(op), t);
          WorkerPlan(sys.db, env, op, scan, t.write);
        case _ => ReplayReads(sys.db, env, agent.checked, task, rest, t);
      }
    }
    GotoKeepsInv(start, sys, a, todo);
  }

  /** A transaction that went through leaves its movement to be named, a refused one throws. */
  lemma MakeLeaves(sys: System, a: AgentId, env: Env, t: Task)
    requires a in sys.agents && sys.agents[a].todo != [] && sys.agents[a].todo[0].Make?
    requires TaskInv(sys.db, sys.agents[a].checked, sys.agents[a].todo[0])
    requires t in Next(sys, Advance(a, env)).agents[a].todo && t !in sys.agents[a].todo[1..]
    ensures TaskInv(Apply(sys.db, sys.agents[a].todo[0].write), sys.agents[a].checked, t)
  {
  }

  lemma MakeKeepsInv(start: Db, sys: System, a: AgentId, env: Env)
    requires SysInv(start, sys) && a in sys.agents && sys.agents[a].todo != [] && sys.agents[a].todo[0].Make?
    ensures SysInv(start, Next(sys, Advance(a, env)))
  {
    var agent := sys.agents[a];
    var w := agent.todo[0].write;
    assert TaskInv(sys.db, agent.checked, agent.todo[0]);
    var todo := Next(sys, Advance(a, env)).agents[a].todo;
    forall t | t in todo ensures TaskInv(Apply(sys.db, w), agent.checked, t) {
      if t in agent.todo[1..] {
        assert t in agent.todo;
        TaskStays(sys.db, w, agent.checked, t);
      } else {
        MakeLeaves(sys, a, env, t);
      }
    }
    LogKeepsInv(start, sys, a, w, todo);
  }

  lemma SendKeepsInv(start: Db, sys: System, a: AgentId, env: Env)
    requires SysInv(start, sys) && a in sys.agents && sys.agents[a].todo != [] && sys.agents[a].todo[0].Send?
    ensures SysInv(start, Next(sys, Advance(a, env)))
  {
    var agent := sys.agents[a];
    var task, rest := agent.todo[0], agent.todo[1..];
    assert TaskInv(sys.db, agent.checked, task);
    var todo := Next(sys, Advance(a, env)).agents[a].todo;
    forall t | t in todo ensures TaskInv(Apply(sys.db, task.write), agent.checked, t) {
      if Refused(sys.db, task.write) {
        SendsAre(task.otherwise, [], t);
      } else {
        assert t in agent.todo;
        TaskStays(sys.db, task.write, agent.checked, t);
      }
    }
    LogKeepsInv(start, sys, a, task.write, todo);
  }

  lemma NextKeepsInv(start: Db, sys: System, step: Step)
    requires SysInv(start, sys)
    ensures SysInv(start, Next(sys, step))
  {
    if Next(sys, step) != sys {
      match step
      case Begin(a, env, r) => BeginKeepsInv(start, sys, a, env, r);
      case Stop(a) =>
      case Advance(a, env) =>
        match sys.agents[a].todo[0]
        case Send(_, _) => SendKeepsInv(start, sys, a, env);
        case Make(_, _, _, _) => MakeKeepsInv(start, sys, a, env);
        case _ => ReadKeepsInv(start, sys, a, env);
    }
  }

  lemma {:induction false} RunKeepsInv(start: Db, sys: System, steps: seq<Step>)
    requires SysInv(start, sys)
    ensures SysInv(start, Run(sys, steps))
    decreases |steps|
  {
    if steps != [] {
      NextKeepsInv(start, sys, steps[0]);
      RunKeepsInv(start, Next(sys, steps[0]), steps[1..]);
    }
  }

  /**
   * However the five requests overlap and wherever they stop, the writes they
   * send form an interleaving, so every movement stays what it is from the
   * moment it is made.
   */
  lemma OverlapIsInterleaving(db: Db, steps: seq<Step>)
    requires Inv(db)
    ensures var sys := Run(Opened(db), steps);
            && Interleaving(db, sys.log) && sys.db == After(db, sys.log, |sys.log|)
            && Inv(sys.db) && KeepsMovements(db, sys.db)
  {
    assert SysInv(db, Opened(db));
    RunKeepsInv(db, Opened(db), steps);
    var sys := Run(Opened(db), steps);
    forall k | 0 <= k < |sys.log|
      ensures WellFormed(sys.log[k]) && exists j: nat :: j <= k && Backed(After(db, sys.log, j), sys.log[k])
    {
      assert Logged(db, sys.log, sys.checks, k);
    }
    MovementsAreForever(db, sys.log, 0, |sys.log|);
    assert sys.log[..0] == [];
  }

  // ----- When CONFLICTED survives ----------------------------------------

  /** The row of the operation is the same from moment `i` to the end. */
  ghost predicate FrozenFrom(db: Db, writes: seq<Write>, op: OperationId, i: nat)
    requires i <= |writes|
  {
    forall j: nat :: i <= j <= |writes| ==>
      Lookup(After(db, writes, j).offline, op) == Lookup(After(db, writes, i).offline, op)
  }

  /** A link, failure or finish of the operation arrives after moment `i` from a request that checked it before. */
  predicate LateWrite(writes: seq<Write>, checks: seq<nat>, op: OperationId, i: nat) {
    exists k :: i <= k < |writes| && k < |checks| && Rewrites(writes[k]) && writes[k].operationId == op && checks[k] < i
  }

  lemma WriteOnConflicted(db: Db, w: Write, op: OperationId)
    requires ConflictedIn(db, op)
    ensures Rewrites(w) && w.operationId == op ==> Lookup(Apply(db, w).offline, op) != Lookup(db.offline, op)
    ensures !(Rewrites(w) && w.operationId == op) ==> Lookup(Apply(db, w).offline, op) == Lookup(db.offline, op)
  {
  }

  lemma {:induction false} FrozenSoFar(db: Db, writes: seq<Write>, checks: seq<nat>, op: OperationId, i: nat, j: nat)
    requires LogInv(db, writes, checks) && i <= j <= |writes| && ConflictedIn(After(db, writes, i), op)
    requires !LateWrite(writes, checks, op, i)
    ensures forall n: nat :: i <= n <= j ==>
            Lookup(After(db, writes, n).offline, op) == Lookup(After(db, writes, i).offline, op)
    decreases j - i
  {
    if i < j {
      FrozenSoFar(db, writes, checks, op, i, j - 1);
      var w := writes[j - 1];
      assert Logged(db, writes, checks, j - 1);
      var c := checks[j - 1];
      assert i <= c ==> Lookup(After(db, writes, c).offline, op) == Lookup(After(db, writes, i).offline, op);
      AfterStep(db, writes, j - 1);
      WriteOnConflicted(After(db, writes, j - 1), w, op);
    }
  }

  /**
   * Under any interleaving an operation that is CONFLICTED stays as it is to
   * the end exactly when no link, failure or finish of it arrives from a
   * request that had checked it before it was marked.
   */
  lemma ConflictSurvives(db: Db, writes: seq<Write>, checks: seq<nat>, op: OperationId, i: nat)
    requires LogInv(db, writes, checks) && i <= |writes| && ConflictedIn(After(db, writes, i), op)
    ensures FrozenFrom(db, writes, op, i) <==> !LateWrite(writes, checks, op, i)
  {
    if LateWrite(writes, checks, op, i) {
      var k :| i <= k < |writes| && k < |checks| && Rewrites(writes[k]) && writes[k].operationId == op && checks[k] < i;
      AfterStep(db, writes, k);
      if ConflictedIn(After(db, writes, k), op) { WriteOnConflicted(After(db, writes, k), writes[k], op); }
      assert Lookup(After(db, writes, k).offline, op) != Lookup(After(db, writes, k + 1).offline, op)
             || !ConflictedIn(After(db, writes, k), op);
    } else {
      FrozenSoFar(db, writes, checks, op, i, |writes|);
    }
  }

  /** The same for the requests themselves, over every run in which they overlap. */
  lemma ConflictSurvivesOverlap(db: Db, steps: seq<Step>, op: OperationId, i: nat)
    requires Inv(db) && i <= |Run(Opened(db), steps).log|
    requires ConflictedIn(After(db, Run(Opened(db), steps).log, i), op)
    ensures var sys := Run(Opened(db), steps);
            (FrozenFrom(db, sys.log, op, i) <==> !LateWrite(sys.log, sys.checks, op, i))
  {
    assert SysInv(db, Opened(db));
    RunKeepsInv(db, Opened(db), steps);
    var sys := Run(Opened(db), steps);
    ConflictSurvives(db, sys.log, sys.checks, op, i);
  }

  /** What may still update the row of the operation. */
  predicate Touches(t: Task, op: OperationId) {
    match t
    case Send(w, _) => Rewrites(w) && w.operationId == op
    case Check(_) => false
    case Work(_, _) => false
    case _ => t.operationId == op
  }

  /** CONFLICTED, and no request that is under way has still to link, replay or finish the operation. */
  ghost predicate Settled(sys: System, op: OperationId) {
    ConflictedIn(sys.db, op) && forall a, t :: a in sys.agents && t in sys.agents[a].todo ==> !Touches(t, op)
  }

  lemma TouchesOwn(db: Db, env: Env, t: Task, rest: seq<Task>, next: Task, op: OperationId)
    requires !Touches(t, op) && Reads(t) && next !in rest
    requires match t
      case Check(scan) => next in Sends(PlanScan(db, env, scan), []) + rest
      case Work(row, scan) => next in Sends(PlanWork(db, env, row, scan), MarkFailed(row)) + rest
      case Replay(row, caught) => next in AfterRowRead(db, row, caught, rest)
      case FindRaw(row, o, caught) => next in AfterRawRead(db, row, o, caught, rest)
      case Judge(row, o, found, caught) => next in AfterJudging(db, env, row, o, found, caught, rest)
    ensures !Touches(next, op)
  {
    match t
    case Check(scan) =>
      SendsAre(PlanScan(db, env, scan), [], next);
      DirectPlan(db, env, scan, next.write);
    case Work(row, scan) =>
      SendsAre(PlanWork(db, env, row, scan), MarkFailed(row), next);
      WorkerPlan(db, env, row, scan, next.write);
    case _ =>
  }

  lemma TodoStaysSettled(sys: System, a: AgentId, env: Env, op: OperationId, next: Task)
    requires a in sys.agents && sys.agents[a].todo != [] && next in Next(sys, Advance(a, env)).agents[a].todo
    requires forall t :: t in sys.agents[a].todo ==> !Touches(t, op)
    requires TaskInv(sys.db, sys.agents[a].checked, sys.agents[a].todo[0])
    ensures !Touches(next, op)
  {
    var task, rest := sys.agents[a].todo[0], sys.agents[a].todo[1..];
    if next in rest { assert next in sys.agents[a].todo; }
    else if Reads(task) { TouchesOwn(sys.db, env, task, rest, next, op); }
    else if task.Send? { SendsAre(task.otherwise, [], next); }
    else { MakeTouchesOwn(sys, a, env, op, next); }
  }

  lemma MakeTouchesOwn(sys: System, a: AgentId, env: Env, op: OperationId, next: Task)
    requires a in sys.agents && sys.agents[a].todo != [] && sys.agents[a].todo[0].Make?
    requires sys.agents[a].todo[0].operationId != op
    requires next in Next(sys, Advance(a, env)).agents[a].todo && next !in sys.agents[a].todo[1..]
    ensures !Touches(next, op)
  {
  }

  lemma AdvanceKeepsSettled(start: Db, sys: System, a: AgentId, env: Env, op: OperationId)
    requires SysInv(start, sys) && Settled(sys, op) && a in sys.agents && sys.agents[a].todo != []
    ensures Settled(Next(sys, Advance(a, env)), op)
    ensures Lookup(Next(sys, Advance(a, env)).db.offline, op) == Lookup(sys.db.offline, op)
  {
    var task, t := sys.agents[a].todo[0], Next(sys, Advance(a, env));
    assert AgentInv(start, sys.log, sys.db, sys.agents[a]);
    assert TaskInv(sys.db, sys.agents[a].checked, task) && !Touches(task, op);
    forall b, next | b in t.agents && next in t.agents[b].todo ensures !Touches(next, op) {
      if b == a { TodoStaysSettled(sys, a, env, op, next); } else { assert next in sys.agents[b].todo; }
    }
    if !Reads(task) { WriteOnConflicted(sys.db, task.write, op); }
  }

  lemma StepKeepsSettled(start: Db, sys: System, step: Step, op: OperationId)
    requires SysInv(start, sys) && Settled(sys, op)
    ensures Settled(Next(sys, step), op) && Lookup(Next(sys, step).db.offline, op) == Lookup(sys.db.offline, op)
  {
    match step
    case Stop(_) =>
    case Begin(a, env, r) =>
      if a !in sys.agents && Answers(sys.db, r) {
        CheckedAreOpen(sys.db, r, op);
        forall t | t in Tasks(sys.db, env, r) ensures !Touches(t, op) { FirstTasks(sys.db, env, r, t); }
      }
    case Advance(a, env) =>
      if a in sys.agents && sys.agents[a].todo != [] { AdvanceKeepsSettled(start, sys, a, env, op); }
  }

  lemma {:induction false} SettledStays(start: Db, sys: System, steps: seq<Step>, op: OperationId)
    requires SysInv(start, sys) && Settled(sys, op)
    ensures Settled(Run(sys, steps), op) && Lookup(Run(sys, steps).db.offline, op) == Lookup(sys.db.offline, op)
    decreases |steps|
  {
    if steps != [] {
      NextKeepsInv(start, sys, steps[0]);
      StepKeepsSettled(start, sys, steps[0], op);
      SettledStays(start, Next(sys, steps[0]), steps[1..], op);
    }
  }

  /**
   * A mark that finds no request under way with something left to do to its
   * operation is final: whatever requests come later and however they overlap.
   */
  lemma SettledConflictIsFinal(db: Db, before: seq<Step>, later: seq<Step>, op: OperationId)
    requires Inv(db) && Settled(Run(Opened(db), before), op)
    ensures var marked := Run(Opened(db), before);
            && ConflictedIn(Run(marked, later).db, op)
            && Lookup(Run(marked, later).db.offline, op) == Lookup(marked.db.offline, op)
  {
    assert SysInv(db, Opened(db));
    RunKeepsInv(db, Opened(db), before);
    SettledStays(db, Run(Opened(db), before), later, op);
  }

  /** One event, device and gate; two codes of one registration under different hashes, not yet synced. */
  const TABLES :=
    Env(map[0 := Event(false, true)], map[0 := Device(0, true)], map[], map[0 := Gate(0, true, None)], map[], [], [],
        map[], map[],
        map["a" := SignedOffline(0, 0, "t", "o", "h"), "b" := SignedOffline(0, 0, "t", "o", "i")],
        0, {})

  function Uploaded(code: string): Request {
    IngestOffline(Upload(0, 0, 0, None, 0, code, None, None, Entry, 0, None))
  }

  const EMPTY := Db(map[], map[], map[], 0)

  /** The row the first upload stores. */
  const WAITING := OfflineScan(0, 0, None, 0, "t", Some("o"), Some("h"), 0, Entry, None, PendingLink, None, None, None)

  const RECONCILE := Reconcile(0, "t", "o", 7, [0])

  lemma {:induction false} RunConcat(sys: System, a: seq<Step>, b: seq<Step>)
    ensures Run(sys, a + b) == Run(Run(sys, a), b)
    decreases |a|
  {
    if a == [] { assert a + b == b; }
    else {
      assert (a + b)[1..] == a[1..] + b;
      RunConcat(Next(sys, a[0]), a[1..], b);
    }
  }

  lemma RunTwo(sys: System, s: Step, t: Step)
    ensures Run(sys, [s, t]) == Next(Next(sys, s), t)
  {
    assert [s, t][1..] == [t] && [t][1..] == [];
    assert Run(Next(sys, s), [t]) == Run(Next(Next(sys, s), t), []);
  }

  lemma FirstUpload()
    ensures Run(Opened(EMPTY), [Begin(0, TABLES, Uploaded("a")), Advance(0, TABLES)]) ==
            System(EMPTY.(offline := map[0 := WAITING]), map[0 := Agent(0, {0}, [])], [InsertOffline(0, WAITING)], [0])
  {
    var begun := System(EMPTY, map[0 := Agent(0, {0}, [Send(InsertOffline(0, WAITING), [])])], [], []);
    assert Next(Opened(EMPTY), Begin(0, TABLES, Uploaded("a"))) == begun;
    var done := Next(begun, Advance(0, TABLES));
    assert done.agents[0].todo == [] && done.log == [InsertOffline(0, WAITING)] && done.checks == [0];
    RunTwo(Opened(EMPTY), Begin(0, TABLES, Uploaded("a")), Advance(0, TABLES));
  }

  /**
   * The late write is real. From empty tables: an upload stores an operation;
   * a reconciliation lists it; a second upload, under another hash, marks it
   * CONFLICTED; the reconciliation's write then takes the mark away.
   */
  lemma LateLinkUndoesConflict()
    ensures var stored := [Begin(0, TABLES, Uploaded("a")), Advance(0, TABLES)];
            var marked :=
              stored + [Begin(1, TABLES, RECONCILE), Begin(2, TABLES, Uploaded("b"))] + [Advance(2, TABLES)];
            && ConflictedIn(Run(Opened(EMPTY), marked).db, 0)
            && var after := Run(Opened(EMPTY), marked + [Advance(1, TABLES)]);
               0 in after.db.offline && after.db.offline[0].status == Linked && LateWrite(after.log, after.checks, 0, 2)
  {
    var stored := [Begin(0, TABLES, Uploaded("a")), Advance(0, TABLES)];
    var begins := [Begin(1, TABLES, RECONCILE), Begin(2, TABLES, Uploaded("b"))];
    FirstUpload();
    var s0 := Run(Opened(EMPTY), stored);
    SecondRound(s0);
    RunConcat(Opened(EMPTY), stored, begins);
    RunConcat(Opened(EMPTY), stored + begins, [Advance(2, TABLES)]);
    RunConcat(Opened(EMPTY), stored + begins + [Advance(2, TABLES)], [Advance(1, TABLES)]);
  }

  const LINK := LinkOffline(0, 7, None)

  const MARK := ConflictOffline(0)

  lemma ListWaiting(s0: System)
    requires s0.db == EMPTY.(offline := map[0 := WAITING]) && 1 !in s0.agents && |s0.log| == 1
    ensures Next(s0, Begin(1, TABLES, RECONCILE)) ==
            s0.(agents := s0.agents[1 := Agent(1, {0}, [Send(LINK, []), Replay(0, true)])])
  {
    assert RECONCILE.order[0] == 0;
    assert Answers(s0.db, RECONCILE);
    assert Turns([0], 7) == [Send(LINK, []), Replay(0, true)] by { assert [0][1..] == []; }
    assert CheckedBy(s0.db, RECONCILE) == {0};
  }

  lemma UploadOther(one: System)
    requires one.db == EMPTY.(offline := map[0 := WAITING]) && 2 !in one.agents && |one.log| == 1
    ensures Next(one, Begin(2, TABLES, Uploaded("b"))) ==
            one.(agents := one.agents[2 := Agent(1, {0}, [Send(MARK, [])])])
  {
  }

  lemma SecondRound(s0: System)
    requires s0 ==
             System(EMPTY.(offline := map[0 := WAITING]), map[0 := Agent(0, {0}, [])], [InsertOffline(0, WAITING)], [0])
    ensures var s1 := Run(s0, [Begin(1, TABLES, RECONCILE), Begin(2, TABLES, Uploaded("b"))]);
            var s2 := Run(s1, [Advance(2, TABLES)]);
            var s3 := Run(s2, [Advance(1, TABLES)]);
            && ConflictedIn(s2.db, 0) && 0 in s3.db.offline && s3.db.offline[0].status == Linked
            && LateWrite(s3.log, s3.checks, 0, 2)
  {
    ListWaiting(s0);
    var one := Next(s0, Begin(1, TABLES, RECONCILE));
    UploadOther(one);
    RunTwo(s0, Begin(1, TABLES, RECONCILE), Begin(2, TABLES, Uploaded("b")));
    LinkAfterMark(Next(one, Begin(2, TABLES, Uploaded("b"))));
  }

  lemma LinkAfterMark(two: System)
    requires two.db == EMPTY.(offline := map[0 := WAITING]) && 1 in two.agents && 2 in two.agents
    requires two.agents[1] == Agent(1, {0}, [Send(LINK, []), Replay(0, true)])
    requires two.agents[2] == Agent(1, {0}, [Send(MARK, [])])
    requires two.log == [InsertOffline(0, WAITING)] && two.checks == [0]
    ensures var s2 := Run(two, [Advance(2, TABLES)]);
            var s3 := Run(s2, [Advance(1, TABLES)]);
            && ConflictedIn(s2.db, 0) && 0 in s3.db.offline && s3.db.offline[0].status == Linked
            && LateWrite(s3.log, s3.checks, 0, 2)
  {
    var s2 := Next(two, Advance(2, TABLES));
    assert s2 == Log(two, 2, MARK, []);
    assert [Advance(2, TABLES)][1..] == [] && [Advance(1, TABLES)][1..] == [];
    assert Run(two, [Advance(2, TABLES)]) == Run(s2, []);
    var s3 := Next(s2, Advance(1, TABLES));
    assert s3 == Log(s2, 1, LINK, [Replay(0, true)]);
    assert Run(s2, [Advance(1, TABLES)]) == Run(s3, []);
    assert s3.log[2] == LINK && s3.checks[2] < 2;
  }
}
