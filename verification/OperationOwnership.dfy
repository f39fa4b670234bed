/**
 * Ownership of sync operations: concurrent batches and recovery runs over the
 * SyncOperation table. A request owns an operation from its creation, or from
 * the conditional FAILED-to-PENDING update, until it writes the outcome.
 */
module OperationOwnership {
  import opened Wrappers
  import opened Text

  type OperationId = nat
  type RequestId = nat
  type Output = string

  datatype OperationType = OfflineRegistration | OfflineScan | QrGeneration | ScanEvent

  datatype Operation = Operation(id: OperationId, kind: OperationType)

  datatype Status = Pending | Processed | Failed

  datatype Row = Row(kind: OperationType, status: Status, output: Option<Output>, errorCode: Option<string>)

  // ----- Which failures may be retried ---------------------------------

  function Upper(s: string): string {
    if s == "" then ""
    else [if 'a' <= s[0] <= 'z' then s[0] - 'a' + 'A' else s[0]] + Upper(s[1..])
  }

  const NON_RETRYABLE := { "DUPLICATE_REGISTRATION", "INVALID_OFFLINE_REGISTRATION",
                           "OFFLINE_REGISTRATION_RESOURCE_NOT_FOUND", "OFFLINE_REGISTRATION_CONFLICT" }

  const RETRYABLE := { "OPERATION_FAILED", "OFFLINE_REGISTRATION_FAILED", "OFFLINE_REGISTRATION_RETRYABLE_FAILURE",
                       "PREVIOUS_OPERATION_FAILED", "PREVIOUS_OPERATION_NOT_COMPLETED",
                       "OFFLINE_OPERATION_RESULT_MISSING", "CANONICAL_REGISTRATION_ID_MISSING" }

  predicate CanRetry(row: Row) {
    && row.kind == OfflineRegistration
    && var code := if row.errorCode.None? then "" else Upper(Trim(row.errorCode.value));
       code == "" || (code !in NON_RETRYABLE &&
                      (code in RETRYABLE || "HTTP_5" <= code || "NETWORK_" <= code || "UNKNOWN_" <= code))
  }

  // ----- The order inside a batch --------------------------------------

  function Rank(kind: OperationType): nat {
    match kind case OfflineRegistration => 0 case OfflineScan => 1 case QrGeneration => 2 case ScanEvent => 3
  }

  function InsertOperation(op: Operation, sorted: seq<Operation>): seq<Operation> {
    if sorted == [] || Rank(op.kind) <= Rank(sorted[0].kind) then [op] + sorted
    else [sorted[0]] + InsertOperation(op, sorted[1..])
  }

  /** sortOperations: by type, then by position in the batch. */
  function SortOperations(ops: seq<Operation>): seq<Operation> {
    if ops == [] then [] else InsertOperation(ops[0], SortOperations(ops[1..]))
  }

  function OfRank(ops: seq<Operation>, rank: nat): seq<Operation> {
    if ops == [] then []
    else if Rank(ops[0].kind) == rank then [ops[0]] + OfRank(ops[1..], rank)
    else OfRank(ops[1..], rank)
  }

  function FromRank(ops: seq<Operation>, rank: nat): seq<Operation>
    requires rank <= 4
    decreases 4 - rank
  {
    if rank == 4 then [] else OfRank(ops, rank) + FromRank(ops, rank + 1)
  }

  /** All registrations in their given order, then all scans, then QR generations, then scan events. */
  lemma {:induction false} SortGroupsByType(ops: seq<Operation>)
    ensures SortOperations(ops) == FromRank(ops, 0)
    ensures multiset(SortOperations(ops)) == multiset(ops)
  {
    if ops != [] {
      SortGroupsByType(ops[1..]);
      InsertIntoGroups(ops[0], ops[1..], 0);
      InsertKeepsElements(ops[0], SortOperations(ops[1..]));
      assert ops == [ops[0]] + ops[1..];
    } else {
      assert FromRank(ops, 4) == [] && FromRank(ops, 3) == [] && FromRank(ops, 2) == [] && FromRank(ops, 1) == [];
    }
  }

  /** The operations of the kinds that `keep` names, in the order of the batch. */
  function Only(ops: seq<Operation>, keep: OperationType -> bool): seq<Operation> {
    if ops == [] then [] else (if keep(ops[0].kind) then [ops[0]] else []) + Only(ops[1..], keep)
  }

  lemma {:induction false} OfRankIsOnly(ops: seq<Operation>, rank: nat, keep: OperationType -> bool)
    requires forall kind :: keep(kind) <==> Rank(kind) == rank
    ensures OfRank(ops, rank) == Only(ops, keep)
  {
    if ops != [] { OfRankIsOnly(ops[1..], rank, keep); }
  }

  lemma FourGroups(ops: seq<Operation>)
    ensures FromRank(ops, 0) == OfRank(ops, 0) + OfRank(ops, 1) + OfRank(ops, 2) + OfRank(ops, 3)
  {
    assert FromRank(ops, 4) == [];
    assert FromRank(ops, 3) == OfRank(ops, 3) + FromRank(ops, 4) == OfRank(ops, 3);
    assert FromRank(ops, 2) == OfRank(ops, 2) + FromRank(ops, 3);
    assert FromRank(ops, 1) == OfRank(ops, 1) + FromRank(ops, 2);
  }

  /** A sorted batch: its registrations, its offline scans, its QR generations, its scan events, each in their order. */
  lemma SortedBatchIs(ops: seq<Operation>)
    ensures SortOperations(ops) ==
            Only(ops, (k: OperationType) => k.OfflineRegistration?) + Only(ops, (k: OperationType) => k.OfflineScan?)
            + Only(ops, (k: OperationType) => k.QrGeneration?) + Only(ops, (k: OperationType) => k.ScanEvent?)
  {
    SortGroupsByType(ops);
    OfRankIsOnly(ops, 0, (k: OperationType) => k.OfflineRegistration?);
    OfRankIsOnly(ops, 1, (k: OperationType) => k.OfflineScan?);
    OfRankIsOnly(ops, 2, (k: OperationType) => k.QrGeneration?);
    OfRankIsOnly(ops, 3, (k: OperationType) => k.ScanEvent?);
    FourGroups(ops);
  }

  lemma {:induction false} InsertKeepsElements(op: Operation, sorted: seq<Operation>)
    ensures multiset(InsertOperation(op, sorted)) == multiset{op} + multiset(sorted)
  {
    if sorted != [] && !(Rank(op.kind) <= Rank(sorted[0].kind)) {
      InsertKeepsElements(op, sorted[1..]);
      assert sorted == [sorted[0]] + sorted[1..];
    }
  }

  lemma {:induction false} InsertIntoGroups(op: Operation, rest: seq<Operation>, rank: nat)
    requires rank <= Rank(op.kind)
    ensures InsertOperation(op, FromRank(rest, rank)) == FromRank([op] + rest, rank)
    decreases 4 - rank
  {
    assert ([op] + rest)[1..] == rest;
    if rank == Rank(op.kind) {
      FromRankIgnores(op, rest, rank + 1);
      InsertInFront(op, FromRank(rest, rank), rest, rank);
    } else {
      InsertIntoGroups(op, rest, rank + 1);
      OfRankHasRank(rest, rank);
      InsertAfterGroup(op, OfRank(rest, rank), FromRank(rest, rank + 1), rank);
    }
  }

  lemma {:induction false} FromRankIgnores(op: Operation, rest: seq<Operation>, rank: nat)
    requires Rank(op.kind) < rank <= 4
    ensures FromRank([op] + rest, rank) == FromRank(rest, rank)
    decreases 4 - rank
  {
    assert ([op] + rest)[1..] == rest;
    if rank < 4 { FromRankIgnores(op, rest, rank + 1); }
  }

  lemma {:induction false} OfRankHasRank(ops: seq<Operation>, rank: nat)
    ensures forall x :: x in OfRank(ops, rank) ==> Rank(x.kind) == rank
  {
    if ops != [] { OfRankHasRank(ops[1..], rank); }
  }

  lemma {:induction false} FromRankHasRank(ops: seq<Operation>, rank: nat)
    requires rank <= 4
    ensures forall x :: x in FromRank(ops, rank) ==> Rank(x.kind) >= rank
    decreases 4 - rank
  {
    if rank < 4 {
      OfRankHasRank(ops, rank);
      FromRankHasRank(ops, rank + 1);
    }
  }

  lemma InsertInFront(op: Operation, sorted: seq<Operation>, rest: seq<Operation>, rank: nat)
    requires rank == Rank(op.kind) && sorted == FromRank(rest, rank)
    ensures InsertOperation(op, sorted) == [op] + sorted
  {
    FromRankHasRank(rest, rank);
    if sorted != [] { assert sorted[0] in sorted; }
  }

  lemma {:induction false} InsertAfterGroup(op: Operation, group: seq<Operation>, tail: seq<Operation>, rank: nat)
    requires rank < Rank(op.kind) && forall x :: x in group ==> Rank(x.kind) == rank
    ensures InsertOperation(op, group + tail) == group + InsertOperation(op, tail)
  {
    if group == [] {
      assert group + tail == tail;
    } else {
      assert (group + tail)[1..] == group[1..] + tail;
      assert group[0] in group;
      InsertAfterGroup(op, group[1..], tail, rank);
    }
  }

  // ----- Requests and steps --------------------------------------------

  /**
   * Checked: the batch has read which ids exist. Created: it has inserted the
   * others. Working: it has read the rows that existed; `reserved` are the
   * operations it created and has not reached yet, `stale` the rows it read for
   * ids that existed, `running` the operation it executes.
   */
  datatype Request =
    | Checked(ops: seq<Operation>, duplicates: set<OperationId>)
    | Created(ops: seq<Operation>, duplicates: set<OperationId>, reserved: set<OperationId>)
    | Working(todo: seq<OperationId>, reserved: set<OperationId>, stale: map<OperationId, Row>,
              running: Option<OperationId>)

  datatype Reply = Reply(id: OperationId, status: ReplyStatus, output: Option<Output>)

  datatype ReplyStatus = RepliedProcessed | RepliedDuplicate | RepliedFailed

  datatype System = System(rows: map<OperationId, Row>, requests: map<RequestId, Request>, replies: set<Reply>)

  datatype Step =
    | Submit(request: RequestId, ops: seq<Operation>)
    | CreateBatch(request: RequestId)
    | ReadDuplicates(request: RequestId)
    | StartRecovery(request: RequestId, limit: nat)
    | Take(request: RequestId)
    | Succeed(request: RequestId, output: Output)
    | Fail(request: RequestId, code: string)
    | Stop(request: RequestId)

  function Ids(ops: seq<Operation>): (ids: seq<OperationId>)
    ensures |ids| == |ops|
  {
    if ops == [] then [] else [ops[0].id] + Ids(ops[1..])
  }

  predicate Distinct(ids: seq<OperationId>) {
    forall i, j :: 0 <= i < j < |ids| ==> ids[i] != ids[j]
  }

  function NewOperations(ops: seq<Operation>, duplicates: set<OperationId>): seq<Operation> {
    if ops == [] then []
    else if ops[0].id in duplicates then NewOperations(ops[1..], duplicates)
    else [ops[0]] + NewOperations(ops[1..], duplicates)
  }

  function AddRows(rows: map<OperationId, Row>, ops: seq<Operation>): map<OperationId, Row>
    decreases |ops|
  {
    if ops == [] then rows else AddRows(rows[ops[0].id := Row(ops[0].kind, Pending, None, None)], ops[1..])
  }

  function IdSet(ids: seq<OperationId>): set<OperationId> { set o | o in ids }

  /** The ids of a batch that exist already. */
  function KnownIds(rows: map<OperationId, Row>, ops: seq<Operation>): set<OperationId> {
    set o | o in rows && o in Ids(ops)
  }

  function Restrict(rows: map<OperationId, Row>, ids: set<OperationId>): map<OperationId, Row> {
    map o | o in rows && o in ids :: rows[o]
  }

  function FailedRegistrations(rows: map<OperationId, Row>): set<OperationId> {
    set o | o in rows && rows[o].status == Failed && rows[o].kind == OfflineRegistration
  }

  /** Those of a list that may be retried. */
  function Recoverable(rows: map<OperationId, Row>, ids: seq<OperationId>): seq<OperationId> {
    if ids == [] then []
    else (if ids[0] in rows && CanRetry(rows[ids[0]]) then [ids[0]] else []) + Recoverable(rows, ids[1..])
  }

  ghost function Listing(ids: set<OperationId>): seq<OperationId> {
    if ids == {} then [] else var o :| o in ids; [o] + Listing(ids - {o})
  }

  /** The next operation of the loop. */
  function TakeStep(sys: System, request: RequestId): System
    requires request in sys.requests && sys.requests[request].Working? && sys.requests[request].todo != []
  {
    var w := sys.requests[request];
    var o, rest := w.todo[0], w.(todo := w.todo[1..]);
    var failed :=
      sys.(requests := sys.requests[request := rest], replies := sys.replies + {Reply(o, RepliedFailed, None)});
    if o in w.reserved then
      sys.(requests := sys.requests[request := rest.(reserved := w.reserved - {o}, running := Some(o))])
    else if o !in w.stale then failed
    else if w.stale[o].status == Processed then
      sys.(requests := sys.requests[request := rest],
           replies := sys.replies + {Reply(o, RepliedDuplicate, w.stale[o].output)})
    else if w.stale[o].status == Failed && CanRetry(w.stale[o]) && o in sys.rows && sys.rows[o].status == Failed then
      sys.(rows := sys.rows[o := sys.rows[o].(status := Pending, errorCode := None)],
           requests := sys.requests[request := rest.(running := Some(o))])
    else failed
  }

  ghost function Next(sys: System, step: Step): System {
    match step
    case Submit(q, ops) =>
      if q in sys.requests then sys
      else sys.(requests := sys.requests[q := Checked(ops, KnownIds(sys.rows, ops))])
    case CreateBatch(q) =>
      if q !in sys.requests || !sys.requests[q].Checked? then sys
      else
        var c := sys.requests[q];
        var created := NewOperations(c.ops, c.duplicates);
        var ids := Ids(created);
        if !Distinct(ids) || (exists o :: o in ids && o in sys.rows) then sys.(requests := sys.requests - {q})
        else sys.(rows := AddRows(sys.rows, created),
                  requests := sys.requests[q := Created(c.ops, c.duplicates, IdSet(ids))])
    case ReadDuplicates(q) =>
      if q !in sys.requests || !sys.requests[q].Created? then sys
      else
        var c := sys.requests[q];
        sys.(requests :=
             sys.requests[q := Working(Ids(SortOperations(c.ops)), c.reserved, Restrict(sys.rows, c.duplicates), None)])
    case StartRecovery(q, limit) =>
      if q in sys.requests then sys
      else
        var listing := Listing(FailedRegistrations(sys.rows));
        var ids := Recoverable(sys.rows, if |listing| > limit then listing[..limit] else listing);
        sys.(requests := sys.requests[q := Working(ids, {}, Restrict(sys.rows, IdSet(ids)), None)])
    case Take(q) =>
      if q !in sys.requests || !sys.requests[q].Working? || sys.requests[q].running.Some?
        || sys.requests[q].todo == [] then sys
      else TakeStep(sys, q)
    case Succeed(q, output) =>
      if q !in sys.requests || !sys.requests[q].Working? || sys.requests[q].running.None?
         || sys.requests[q].running.value !in sys.rows then sys
      else
        var o := sys.requests[q].running.value;
        System(sys.rows[o := sys.rows[o].(status := Processed, output := Some(output), errorCode := None)],
               sys.requests[q := sys.requests[q].(running := None)],
               sys.replies + {Reply(o, RepliedProcessed, Some(output))})
    case Fail(q, code) =>
      if q !in sys.requests || !sys.requests[q].Working? || sys.requests[q].running.None?
         || sys.requests[q].running.value !in sys.rows then sys
      else
        var o := sys.requests[q].running.value;
        System(sys.rows[o := sys.rows[o].(status := Failed, errorCode := Some(code))],
               sys.requests[q := sys.requests[q].(running := None)],
               sys.replies + {Reply(o, RepliedFailed, None)})
    case Stop(q) => sys.(requests := sys.requests - {q})
  }

  ghost function Run(sys: System, steps: seq<Step>): System
    decreases |steps|
  {
    if steps == [] then sys else Run(Next(sys, steps[0]), steps[1..])
  }

  // ----- Ownership -----------------------------------------------------

  predicate Owns(request: Request, o: OperationId) {
    || (request.Created? && o in request.reserved)
    || (request.Working? && (request.running == Some(o) || o in request.reserved))
  }

  ghost predicate RequestInv(rows: map<OperationId, Row>, request: Request) {
    match request
    case Checked(_, duplicates) => forall o :: o in duplicates ==> o in rows
    case Created(_, duplicates, reserved) =>
      && (forall o :: o in duplicates ==> o in rows)
      && (forall o :: Owns(request, o) ==> o in rows && rows[o].status == Pending)
    case Working(_, reserved, stale, running) =>
      && (running.Some? ==> running.value !in reserved)
      && (forall o :: Owns(request, o) ==> o in rows && rows[o].status == Pending)
      && (forall o :: o in stale ==> o in rows && (stale[o].status == Processed ==> rows[o] == stale[o]))
  }

  ghost predicate Inv(sys: System) {
    && (forall q :: q in sys.requests ==> RequestInv(sys.rows, sys.requests[q]))
    && (forall q1, q2, o ::
        q1 in sys.requests && q2 in sys.requests && Owns(sys.requests[q1], o) && Owns(sys.requests[q2], o) ==>
        q1 == q2)
    && (forall o :: o in sys.rows && sys.rows[o].status == Processed ==> sys.rows[o].output.Some?)
    && (forall r :: r in sys.replies ==> ReplyInv(sys.rows, r))
  }

  ghost predicate ReplyInv(rows: map<OperationId, Row>, r: Reply) {
    r.status != RepliedFailed ==>
      r.id in rows && rows[r.id].status == Processed && r.output == rows[r.id].output && r.output.Some?
  }

  /** PROCESSED is final: no step changes the row again. */
  ghost predicate KeepsProcessed(before: map<OperationId, Row>, after: map<OperationId, Row>) {
    forall o :: o in before ==> o in after && (before[o].status == Processed ==> after[o] == before[o])
  }

  lemma {:induction false} AddRowsIsFresh(rows: map<OperationId, Row>, ops: seq<Operation>)
    ensures var ids := Ids(ops);
            forall o :: o in AddRows(rows, ops) <==> o in rows || o in ids
    ensures forall o :: o in rows && o !in Ids(ops) ==> AddRows(rows, ops)[o] == rows[o]
    ensures forall o :: o in Ids(ops) ==> AddRows(rows, ops)[o].status == Pending
    decreases |ops|
  {
    if ops != [] {
      AddRowsIsFresh(rows[ops[0].id := Row(ops[0].kind, Pending, None, None)], ops[1..]);
    }
  }

  lemma OtherRequestsKeepInv(before: map<OperationId, Row>, after: map<OperationId, Row>, request: Request,
                             changed: set<OperationId>)
    requires RequestInv(before, request) && KeepsProcessed(before, after)
    requires forall o :: o in before && o !in changed ==> o in after && after[o] == before[o]
    requires forall o :: o in changed ==> !Owns(request, o)
    ensures RequestInv(after, request)
  {
  }

  lemma CreateKeepsInv(sys: System, q: RequestId)
    requires Inv(sys)
    ensures Inv(Next(sys, CreateBatch(q))) && KeepsProcessed(sys.rows, Next(sys, CreateBatch(q)).rows)
  {
    var t := Next(sys, CreateBatch(q));
    if q in sys.requests && sys.requests[q].Checked? && q in t.requests && t.requests[q].Created? {
      var c := sys.requests[q];
      var created := NewOperations(c.ops, c.duplicates);
      AddRowsIsFresh(sys.rows, created);
      var ids := Ids(created);
      forall p | p in t.requests ensures RequestInv(t.rows, t.requests[p]) {
        assert RequestInv(sys.rows, sys.requests[p]);
      }
      forall r | r in t.replies ensures ReplyInv(t.rows, r) { assert ReplyInv(sys.rows, r); }
      forall p, o | p in t.requests && p != q && Owns(t.requests[p], o) ensures o !in ids {
        assert RequestInv(sys.rows, sys.requests[p]);
      }
    }
  }

  /** One owner finishes: its operation leaves every ownership, and the others are untouched. */
  lemma FinishKeepsInv(sys: System, q: RequestId, row: Row, reply: Reply)
    requires Inv(sys) && q in sys.requests && sys.requests[q].Working? && sys.requests[q].running.Some?
    requires var o := sys.requests[q].running.value;
             && reply.id == o && o in sys.rows && row.status != Pending
             && (row.status == Processed ==> row.output.Some?)
             && (reply.status != RepliedFailed ==> row.status == Processed && reply.output == row.output)
    ensures var o := sys.requests[q].running.value;
            var t := System(sys.rows[o := row], sys.requests[q := sys.requests[q].(running := None)],
                            sys.replies + {reply});
            Inv(t) && KeepsProcessed(sys.rows, t.rows)
  {
    var o := sys.requests[q].running.value;
    var t := System(sys.rows[o := row], sys.requests[q := sys.requests[q].(running := None)], sys.replies + {reply});
    assert RequestInv(sys.rows, sys.requests[q]) && Owns(sys.requests[q], o);
    forall p | p in t.requests && p != q ensures RequestInv(t.rows, t.requests[p]) {
      assert RequestInv(sys.rows, sys.requests[p]);
      assert !Owns(sys.requests[p], o);
      OtherRequestsKeepInv(sys.rows, t.rows, sys.requests[p], {o});
    }
    forall x | Owns(t.requests[q], x) ensures x != o && Owns(sys.requests[q], x) {}
    assert RequestInv(t.rows, t.requests[q]);
    forall r | r in t.replies ensures ReplyInv(t.rows, r) { if r in sys.replies { assert ReplyInv(sys.rows, r); } }
    forall q1, q2, x | q1 in t.requests && q2 in t.requests && Owns(t.requests[q1], x) && Owns(t.requests[q2], x)
      ensures q1 == q2
    {
      assert Owns(sys.requests[q1], x) && Owns(sys.requests[q2], x);
    }
  }

  lemma TakeKeepsInv(sys: System, q: RequestId)
    requires Inv(sys) && q in sys.requests && sys.requests[q].Working? && sys.requests[q].running.None?
             && sys.requests[q].todo != []
    ensures Inv(TakeStep(sys, q)) && KeepsProcessed(sys.rows, TakeStep(sys, q).rows)
  {
    var w := sys.requests[q];
    var o, t := w.todo[0], TakeStep(sys, q);
    assert RequestInv(sys.rows, w);
    if t.rows == sys.rows {
      forall p | p in t.requests
        ensures RequestInv(t.rows, t.requests[p])
      {
        assert RequestInv(sys.rows, sys.requests[p]);
      }
      forall q1, q2, x | q1 in t.requests && q2 in t.requests && Owns(t.requests[q1], x) && Owns(t.requests[q2], x)
        ensures q1 == q2
      {
        assert Owns(sys.requests[q1], x) && Owns(sys.requests[q2], x);
      }
      forall r | r in t.replies ensures ReplyInv(t.rows, r) { if r in sys.replies { assert ReplyInv(sys.rows, r); } }
    } else {
      ClaimKeepsInv(sys, q);
    }
  }

  /** The conditional update hands a failed operation, which nobody owns, to exactly one request. */
  lemma ClaimKeepsInv(sys: System, q: RequestId)
    requires Inv(sys) && q in sys.requests && sys.requests[q].Working? && sys.requests[q].running.None?
             && sys.requests[q].todo != []
    requires TakeStep(sys, q).rows != sys.rows
    ensures Inv(TakeStep(sys, q)) && KeepsProcessed(sys.rows, TakeStep(sys, q).rows)
  {
    var w := sys.requests[q];
    var o, t := w.todo[0], TakeStep(sys, q);
    assert RequestInv(sys.rows, w);
    assert o in sys.rows && sys.rows[o].status == Failed;
    forall p | p in sys.requests ensures !Owns(sys.requests[p], o) { assert RequestInv(sys.rows, sys.requests[p]); }
    forall p | p in t.requests && p != q ensures RequestInv(t.rows, t.requests[p]) {
      assert RequestInv(sys.rows, sys.requests[p]);
      OtherRequestsKeepInv(sys.rows, t.rows, sys.requests[p], {o});
    }
    assert RequestInv(t.rows, t.requests[q]);
    forall q1, q2, x | q1 in t.requests && q2 in t.requests && Owns(t.requests[q1], x) && Owns(t.requests[q2], x)
      ensures q1 == q2
    {
      if x != o { assert Owns(sys.requests[q1], x) && Owns(sys.requests[q2], x); }
    }
    forall r | r in t.replies ensures ReplyInv(t.rows, r) { assert ReplyInv(sys.rows, r); }
  }

  /** Steps that change neither rows nor replies, and hand no operation to anybody. */
  lemma ReadingKeepsInv(sys: System, step: Step)
    requires Inv(sys) && (step.Submit? || step.ReadDuplicates? || step.StartRecovery? || step.Stop?)
    ensures Inv(Next(sys, step)) && Next(sys, step).rows == sys.rows
  {
    var t := Next(sys, step);
    forall p | p in t.requests ensures RequestInv(t.rows, t.requests[p]) {
      if p in sys.requests { assert RequestInv(sys.rows, sys.requests[p]); }
    }
    forall q1, q2, x | q1 in t.requests && q2 in t.requests && Owns(t.requests[q1], x) && Owns(t.requests[q2], x)
      ensures q1 == q2
    {
      assert q1 in sys.requests && q2 in sys.requests;
    }
  }

  lemma StepKeepsInv(sys: System, step: Step)
    requires Inv(sys)
    ensures Inv(Next(sys, step)) && KeepsProcessed(sys.rows, Next(sys, step).rows)
  {
    var t := Next(sys, step);
    match step
    case CreateBatch(q) => CreateKeepsInv(sys, q);
    case Take(q) =>
      if q in sys.requests && sys.requests[q].Working? && sys.requests[q].running.None? && sys.requests[q].todo != [] {
        TakeKeepsInv(sys, q);
      }
    case Succeed(q, output) =>
      if t != sys {
        var o := sys.requests[q].running.value;
        FinishKeepsInv(sys, q, sys.rows[o].(status := Processed, output := Some(output), errorCode := None),
                       Reply(o, RepliedProcessed, Some(output)));
      }
    case Fail(q, code) =>
      if t != sys {
        var o := sys.requests[q].running.value;
        FinishKeepsInv(sys, q, sys.rows[o].(status := Failed, errorCode := Some(code)), Reply(o, RepliedFailed, None));
      }
    case _ => ReadingKeepsInv(sys, step);
  }

  lemma {:induction false} RunKeepsInv(sys: System, steps: seq<Step>)
    requires Inv(sys)
    ensures Inv(Run(sys, steps)) && KeepsProcessed(sys.rows, Run(sys, steps).rows)
    decreases |steps|
  {
    if steps != [] {
      StepKeepsInv(sys, steps[0]);
      RunKeepsInv(Next(sys, steps[0]), steps[1..]);
    }
  }

  const EMPTY := System(map[], map[], {})

  lemma EmptyInv()
    ensures Inv(EMPTY)
  {
  }

  /** At most one executor holds an operation, and it is pending while it is held. */
  lemma OneOwner(steps: seq<Step>, q1: RequestId, q2: RequestId, o: OperationId)
    requires var sys := Run(EMPTY, steps);
             q1 in sys.requests && q2 in sys.requests && Owns(sys.requests[q1], o) && Owns(sys.requests[q2], o)
    ensures q1 == q2
    ensures var sys := Run(EMPTY, steps); o in sys.rows && sys.rows[o].status == Pending
  {
    EmptyInv();
    RunKeepsInv(EMPTY, steps);
    var sys := Run(EMPTY, steps);
    assert RequestInv(sys.rows, sys.requests[q1]);
  }

  /** Every PROCESSED or DUPLICATE reply for an id carries the one stored output. */
  lemma RepliesAgree(steps: seq<Step>, a: Reply, b: Reply)
    requires var sys := Run(EMPTY, steps); a in sys.replies && b in sys.replies
    requires a.id == b.id && a.status != RepliedFailed && b.status != RepliedFailed
    ensures a.output == b.output && a.output.Some?
  {
    EmptyInv();
    RunKeepsInv(EMPTY, steps);
    var sys := Run(EMPTY, steps);
    assert ReplyInv(sys.rows, a) && ReplyInv(sys.rows, b);
  }

  // ----- Operations whose owner stopped ----------------------------------

  ghost predicate Held(sys: System, o: OperationId) { exists q :: q in sys.requests && Owns(sys.requests[q], o) }

  predicate IsPending(sys: System, o: OperationId) { o in sys.rows && sys.rows[o].status == Pending }

  /** A request still has every operation before it that it has created and not reached. */
  ghost predicate ReservedAhead(request: Request) {
    match request
    case Checked(_, _) => true
    case Created(ops, _, reserved) => forall o :: o in reserved ==> o in Ids(ops)
    case Working(todo, reserved, _, _) => forall o :: o in reserved ==> o in todo
  }

  ghost predicate AllAhead(sys: System) { forall q :: q in sys.requests ==> ReservedAhead(sys.requests[q]) }

  lemma {:induction false} NewIdsAreIds(ops: seq<Operation>, duplicates: set<OperationId>)
    ensures forall o :: o in Ids(NewOperations(ops, duplicates)) ==> o in Ids(ops)
  {
    if ops != [] { NewIdsAreIds(ops[1..], duplicates); }
  }

  lemma {:induction false} IdsOfMembers(ops: seq<Operation>, o: OperationId)
    ensures o in Ids(ops) <==> exists op :: op in ops && op.id == o
  {
    if ops != [] {
      IdsOfMembers(ops[1..], o);
      assert forall op :: op in ops <==> op == ops[0] || op in ops[1..];
    }
  }

  lemma SortingKeepsIds(ops: seq<Operation>, o: OperationId)
    requires o in Ids(ops)
    ensures o in Ids(SortOperations(ops))
  {
    SortGroupsByType(ops);
    IdsOfMembers(ops, o);
    IdsOfMembers(SortOperations(ops), o);
    var op :| op in ops && op.id == o;
    assert op in multiset(ops) && op in multiset(SortOperations(ops));
  }

  lemma StepKeepsAhead(sys: System, step: Step)
    requires AllAhead(sys)
    ensures AllAhead(Next(sys, step))
  {
    var t := Next(sys, step);
    forall q | q in t.requests ensures ReservedAhead(t.requests[q]) {
      if q in sys.requests {
        var before := sys.requests[q];
        assert ReservedAhead(before);
        if before.Checked? { NewIdsAreIds(before.ops, before.duplicates); }
        if before.Created? {
          forall o | o in before.reserved ensures o in Ids(SortOperations(before.ops)) {
            SortingKeepsIds(before.ops, o);
          }
        }
      }
    }
  }

  predicate SameRow(sys: System, t: System, o: OperationId) {
    o in sys.rows && o in t.rows && t.rows[o] == sys.rows[o]
  }

  lemma CreateKeepsAbandoned(sys: System, q: RequestId, o: OperationId)
    requires IsPending(sys, o) && !Held(sys, o)
    ensures SameRow(sys, Next(sys, CreateBatch(q)), o) && !Held(Next(sys, CreateBatch(q)), o)
  {
    var t := Next(sys, CreateBatch(q));
    if q in sys.requests && sys.requests[q].Checked? {
      AddRowsIsFresh(sys.rows, NewOperations(sys.requests[q].ops, sys.requests[q].duplicates));
    }
    forall p | p in t.requests ensures !Owns(t.requests[p], o) { assert p in sys.requests; }
  }

  lemma TakeKeepsAbandoned(sys: System, q: RequestId, o: OperationId)
    requires IsPending(sys, o) && !Held(sys, o)
    ensures SameRow(sys, Next(sys, Take(q)), o) && !Held(Next(sys, Take(q)), o)
  {
    var t := Next(sys, Take(q));
    forall p | p in t.requests ensures !Owns(t.requests[p], o) { assert !Owns(sys.requests[p], o); }
  }

  /** Nobody comes to hold a pending operation that nobody holds, and nobody decides it. */
  lemma StepKeepsAbandoned(sys: System, step: Step, o: OperationId)
    requires IsPending(sys, o) && !Held(sys, o)
    ensures SameRow(sys, Next(sys, step), o) && !Held(Next(sys, step), o)
  {
    match step
    case CreateBatch(q) => CreateKeepsAbandoned(sys, q, o);
    case Take(q) => TakeKeepsAbandoned(sys, q, o);
    case _ =>
      var t := Next(sys, step);
      forall p | p in t.requests ensures !Owns(t.requests[p], o) {
        if p in sys.requests { assert !Owns(sys.requests[p], o); }
      }
  }

  lemma {:induction false} AbandonedStays(sys: System, steps: seq<Step>, o: OperationId)
    requires IsPending(sys, o) && !Held(sys, o)
    ensures SameRow(sys, Run(sys, steps), o) && !Held(Run(sys, steps), o)
    decreases |steps|
  {
    if steps != [] {
      StepKeepsAbandoned(sys, steps[0], o);
      AbandonedStays(Next(sys, steps[0]), steps[1..], o);
    }
  }

  /** The step a request takes next on its way to an operation it holds, failing what comes before. */
  function Onward(sys: System, q: RequestId, o: OperationId): Step
    requires q in sys.requests
  {
    var r := sys.requests[q];
    if r.Created? then ReadDuplicates(q)
    else if r.Working? && r.running.Some? then Fail(q, "")
    else Take(q)
  }

  function Distance(request: Request): nat {
    match request
    case Checked(_, _) => 0
    case Created(ops, _, _) => 2 * |ops| + 2
    case Working(todo, _, _, running) => 2 * |todo| + if running.Some? then 1 else 0
  }

  lemma {:induction false} SortingKeepsLength(ops: seq<Operation>)
    ensures |SortOperations(ops)| == |ops|
  {
    SortGroupsByType(ops);
    assert |multiset(SortOperations(ops))| == |multiset(ops)|;
  }

  lemma OnwardComesCloser(sys: System, q: RequestId, o: OperationId)
    requires Inv(sys) && AllAhead(sys) && q in sys.requests && Owns(sys.requests[q], o)
    requires sys.requests[q].Working? ==> sys.requests[q].running != Some(o)
    ensures var t := Next(sys, Onward(sys, q, o));
            q in t.requests && Owns(t.requests[q], o) && Distance(t.requests[q]) < Distance(sys.requests[q])
  {
    var r := sys.requests[q];
    assert RequestInv(sys.rows, r) && ReservedAhead(r);
    if r.Created? { SortingKeepsLength(r.ops); }
    else if r.running.Some? { assert Owns(r, r.running.value); }
  }

  /** Whoever holds an operation can get to it and decide it. */
  lemma {:induction false} HolderDecides(sys: System, q: RequestId, o: OperationId) returns (steps: seq<Step>)
    requires Inv(sys) && AllAhead(sys) && q in sys.requests && Owns(sys.requests[q], o)
    ensures o in Run(sys, steps).rows && Run(sys, steps).rows[o].status != Pending
    decreases Distance(sys.requests[q])
  {
    var step, r := Onward(sys, q, o), sys.requests[q];
    assert RequestInv(sys.rows, r);
    if r.Working? && r.running == Some(o) {
      steps := [step];
      assert Run(sys, [step]) == Run(Next(sys, step), []);
    } else {
      StepKeepsInv(sys, step);
      StepKeepsAhead(sys, step);
      OnwardComesCloser(sys, q, o);
      var rest := HolderDecides(Next(sys, step), q, o);
      steps := [step] + rest;
      assert steps[1..] == rest;
    }
  }

  lemma {:induction false} RunKeepsAhead(sys: System, steps: seq<Step>)
    requires AllAhead(sys)
    ensures AllAhead(Run(sys, steps))
    decreases |steps|
  {
    if steps != [] {
      StepKeepsAhead(sys, steps[0]);
      RunKeepsAhead(Next(sys, steps[0]), steps[1..]);
    }
  }

  ghost predicate CanBeDecided(sys: System, o: OperationId) {
    exists steps :: o in Run(sys, steps).rows && Run(sys, steps).rows[o].status != Pending
  }

  /**
   * After any run a pending operation can still be decided exactly when some
   * request holds it: once its owner has stopped it stays PENDING for good, for
   * neither another batch nor a recovery run claims a pending row.
   */
  lemma DecidedIffHeld(steps: seq<Step>, o: OperationId)
    requires IsPending(Run(EMPTY, steps), o)
    ensures CanBeDecided(Run(EMPTY, steps), o) <==> Held(Run(EMPTY, steps), o)
  {
    var sys := Run(EMPTY, steps);
    EmptyInv();
    RunKeepsInv(EMPTY, steps);
    RunKeepsAhead(EMPTY, steps);
    if Held(sys, o) {
      var q :| q in sys.requests && Owns(sys.requests[q], o);
      var later := HolderDecides(sys, q, o);
    } else {
      forall later ensures SameRow(sys, Run(sys, later), o) { AbandonedStays(sys, later, o); }
    }
  }

  // ----- The table and the requests ------------------------------------

  class SyncOperations {
    var rows: map<OperationId, Row>
    var requests: map<RequestId, Request>
    ghost var replies: set<Reply>

    ghost function State(): System reads this { System(rows, requests, replies) }

    constructor ()
      ensures State() == EMPTY
    {
      rows, requests, replies := map[], map[], {};
    }

    /** The nested create of a batch's operations: all of them, or a unique violation and none. */
    method InsertOperations(ops: seq<Operation>) returns (inserted: bool)
      modifies this`rows
      ensures inserted == (Distinct(Ids(ops)) && forall o :: o in Ids(ops) ==> o !in old(rows))
      ensures rows == if inserted then AddRows(old(rows), ops) else old(rows)
    {
      var table: map<OperationId, Row> := rows;
      for i := 0 to |ops|
        invariant rows == old(rows)
        invariant AddRows(table, ops[i..]) == AddRows(old(rows), ops)
        invariant forall o :: o in table <==> o in old(rows) || o in Ids(ops)[..i]
        invariant Distinct(Ids(ops)[..i]) && forall o :: o in Ids(ops)[..i] ==> o !in old(rows)
      {
        IdsAt(ops, i);
        assert Ids(ops)[..i + 1] == Ids(ops)[..i] + [Ids(ops)[i]];
        if ops[i].id in table {
          assert Ids(ops)[i] in Ids(ops);
          assert !Distinct(Ids(ops)) || Ids(ops)[i] in old(rows);
          return false;
        }
        table := table[ops[i].id := Row(ops[i].kind, Pending, None, None)];
        assert ops[i..][1..] == ops[i + 1..];
      }
      IdsAt(ops, |ops|);
      assert Ids(ops)[..|ops|] == Ids(ops);
      rows := table;
      inserted := true;
    }

    /** updateMany on the id and FAILED: the claim of a failed operation. */
    method ClaimFailed(o: OperationId) returns (count: nat)
      modifies this`rows
      ensures count == (if o in old(rows) && old(rows)[o].status == Failed then 1 else 0)
      ensures rows == if count == 1 then old(rows)[o := old(rows)[o].(status := Pending, errorCode := None)]
              else old(rows)
    {
      count := 0;
      if o in rows && rows[o].status == Failed {
        rows := rows[o := rows[o].(status := Pending, errorCode := None)];
        count := 1;
      }
    }

    /** The head of the loop over a batch: execute, answer from the stored row, claim, or refuse. */
    method TakeNext(q: RequestId)
      requires q in requests && requests[q].Working? && requests[q].running.None? && requests[q].todo != []
      modifies this
      ensures State() == Next(old(State()), Take(q))
    {
      var w := requests[q];
      var o, rest := w.todo[0], w.(todo := w.todo[1..]);
      if o in w.reserved {
        requests := requests[q := rest.(reserved := w.reserved - {o}, running := Some(o))];
        return;
      }
      if o in w.stale && w.stale[o].status == Processed {
        requests := requests[q := rest];
        replies := replies + {Reply(o, RepliedDuplicate, w.stale[o].output)};
        return;
      }
      if o in w.stale && w.stale[o].status == Failed && CanRetry(w.stale[o]) {
        var count := ClaimFailed(o);
        if count == 1 {
          requests := requests[q := rest.(running := Some(o))];
          return;
        }
      }
      requests := requests[q := rest];
      replies := replies + {Reply(o, RepliedFailed, None)};
    }

    /** The end of processOperation: the outcome is written and the operation given up. */
    method Complete(q: RequestId, outcome: Result<Output, string>)
      requires q in requests && requests[q].Working? && requests[q].running.Some? && requests[q].running.value in rows
      modifies this
      ensures State() ==
              Next(old(State()), match outcome case Ok(output) => Succeed(q, output) case Err(code) => Fail(q, code))
    {
      var o := requests[q].running.value;
      match outcome {
        case Ok(output) =>
          rows := rows[o := rows[o].(status := Processed, output := Some(output), errorCode := None)];
          replies := replies + {Reply(o, RepliedProcessed, Some(output))};
        case Err(code) =>
          rows := rows[o := rows[o].(status := Failed, errorCode := Some(code))];
          replies := replies + {Reply(o, RepliedFailed, None)};
      }
      requests := requests[q := requests[q].(running := None)];
    }
  }

  lemma {:induction false} IdsAt(ops: seq<Operation>, i: nat)
    requires i <= |ops|
    ensures |Ids(ops)| == |ops| && (i < |ops| ==> Ids(ops)[i] == ops[i].id)
  {
    if ops != [] { IdsAt(ops[1..], if i == 0 then 0 else i - 1); }
  }
}
