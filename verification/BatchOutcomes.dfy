/**
 * What a batch of sync operations that nothing interrupts leaves in the table
 * and answers.
 */
module BatchOutcomes {
  import opened Wrappers
  import opened Text
  import opened OperationOwnership

  /** What executing each operation gives, were it executed. */
  type Outcomes = OperationId -> Result<Output, string>

  ghost function Decide(sys: System, q: RequestId, results: Outcomes): System {
    if q in sys.requests && sys.requests[q].Working? && sys.requests[q].running.Some? then
      var o := sys.requests[q].running.value;
      match results(o) case Ok(output) => Next(sys, Succeed(q, output)) case Err(code) => Next(sys, Fail(q, code))
    else sys
  }

  /** The loop over a batch, `n` operations of it. */
  ghost function Loop(sys: System, q: RequestId, results: Outcomes, n: nat): System
    decreases n
  {
    if n == 0 then sys else Loop(Decide(Next(sys, Take(q)), q, results), q, results, n - 1)
  }

  function Opening(q: RequestId, ops: seq<Operation>): seq<Step> { [Submit(q, ops), CreateBatch(q), ReadDuplicates(q)] }

  lemma RunOpening(sys: System, q: RequestId, ops: seq<Operation>)
    ensures Run(sys, Opening(q, ops)) == Next(Next(Next(sys, Submit(q, ops)), CreateBatch(q)), ReadDuplicates(q))
  {
    var s, one := Opening(q, ops), Next(sys, Submit(q, ops));
    var two := Next(one, CreateBatch(q));
    assert s[1..] == [CreateBatch(q), ReadDuplicates(q)] && s[1..][1..] == [ReadDuplicates(q)];
    assert Run(one, s[1..]) == Run(two, s[1..][1..]);
    assert Run(two, [ReadDuplicates(q)]) == Run(Next(two, ReadDuplicates(q)), []);
  }

  /** Submit, create, read the known ones, and execute one by one. */
  ghost function Batch(sys: System, q: RequestId, ops: seq<Operation>, results: Outcomes): System {
    Loop(Run(sys, Opening(q, ops)), q, results, |ops|)
  }

  /** The row and the reply of an executed operation. */
  predicate IsDecided(t: System, o: OperationId, kind: OperationType, result: Result<Output, string>) {
    && o in t.rows && t.rows[o].kind == kind
    && match result
       case Ok(output) =>
         && t.rows[o].status == Processed && t.rows[o].output == Some(output)
         && Reply(o, RepliedProcessed, Some(output)) in t.replies
       case Err(code) =>
         t.rows[o].status == Failed && t.rows[o].errorCode == Some(code) && Reply(o, RepliedFailed, None) in t.replies
  }

  /** In the middle of the loop: what is to come is reserved and pending, and nothing is running. */
  ghost predicate Midway(sys: System, q: RequestId) {
    && q in sys.requests && sys.requests[q].Working? && sys.requests[q].running.None?
    && Distinct(sys.requests[q].todo)
    && forall o :: o in sys.requests[q].todo ==> o in sys.requests[q].reserved && o in sys.rows
  }

  lemma OneTurn(sys: System, q: RequestId, results: Outcomes)
    requires Midway(sys, q) && sys.requests[q].todo != []
    ensures var o, t := sys.requests[q].todo[0], Decide(Next(sys, Take(q)), q, results);
            && Midway(t, q) && t.requests[q].todo == sys.requests[q].todo[1..]
            && IsDecided(t, o, sys.rows[o].kind, results(o)) && sys.replies <= t.replies
            && (forall other :: other in sys.rows && other != o ==>
                  other in t.rows && t.rows[other] == sys.rows[other])
            && (forall other :: other in t.rows ==> other in sys.rows)
  {
    var w := sys.requests[q];
    var o, taken := w.todo[0], Next(sys, Take(q));
    assert taken.requests[q] == w.(todo := w.todo[1..], reserved := w.reserved - {o}, running := Some(o));
    assert taken.rows == sys.rows && taken.replies == sys.replies;
    forall other | other in w.todo[1..] ensures other in w.reserved - {o} {
      var i :| 1 <= i < |w.todo| && w.todo[i] == other;
    }
  }

  lemma {:induction false} LoopDecidesAll(sys: System, q: RequestId, results: Outcomes)
    requires Midway(sys, q)
    ensures var t, todo := Loop(sys, q, results, |sys.requests[q].todo|), sys.requests[q].todo;
            && (forall o :: o in todo ==> IsDecided(t, o, sys.rows[o].kind, results(o))) && sys.replies <= t.replies
            && (forall other :: other in sys.rows && other !in todo ==>
                  other in t.rows && t.rows[other] == sys.rows[other])
            && (forall other :: other in t.rows ==> other in sys.rows)
    decreases |sys.requests[q].todo|
  {
    var todo := sys.requests[q].todo;
    if todo != [] {
      var next := Decide(Next(sys, Take(q)), q, results);
      OneTurn(sys, q, results);
      LoopDecidesAll(next, q, results);
      var t := Loop(sys, q, results, |todo|);
      assert t == Loop(next, q, results, |todo[1..]|);
      assert todo[0] !in todo[1..];
      forall o | o in todo ensures IsDecided(t, o, sys.rows[o].kind, results(o)) {
        if o == todo[0] { assert t.rows[o] == next.rows[o]; } else { assert o in todo[1..]; }
      }
    }
  }

  lemma {:induction false} NoneKnown(ops: seq<Operation>)
    ensures NewOperations(ops, {}) == ops
  {
    if ops != [] { NoneKnown(ops[1..]); }
  }

  lemma {:induction false} AddedRows(rows: map<OperationId, Row>, ops: seq<Operation>)
    requires Distinct(Ids(ops))
    ensures forall i :: 0 <= i < |ops| ==>
              ops[i].id in AddRows(rows, ops) && AddRows(rows, ops)[ops[i].id] == Row(ops[i].kind, Pending, None, None)
    decreases |ops|
  {
    if ops != [] {
      var more := rows[ops[0].id := Row(ops[0].kind, Pending, None, None)];
      assert Ids(ops)[1..] == Ids(ops[1..]);
      forall i, j | 0 <= i < j < |ops[1..]| ensures Ids(ops[1..])[i] != Ids(ops[1..])[j] {
        assert Ids(ops)[i + 1] != Ids(ops)[j + 1];
      }
      AddedRows(more, ops[1..]);
      AddRowsIsFresh(more, ops[1..]);
      assert ops[0].id !in Ids(ops[1..]) by {
        assert Ids(ops)[0] == ops[0].id;
        forall j | 0 <= j < |ops[1..]| ensures Ids(ops[1..])[j] != ops[0].id {
          assert Ids(ops)[j + 1] == Ids(ops[1..])[j];
        }
      }
    }
  }

  lemma DistinctCons(first: OperationId, rest: seq<OperationId>)
    ensures Distinct([first] + rest) <==> first !in rest && Distinct(rest)
  {
    var ids := [first] + rest;
    if Distinct(ids) {
      forall i | 0 <= i < |rest| ensures rest[i] != first { assert ids[i + 1] != ids[0]; }
      forall i, j | 0 <= i < j < |rest| ensures rest[i] != rest[j] { assert ids[i + 1] != ids[j + 1]; }
    }
  }

  lemma {:induction false} InsertKeepsDistinct(op: Operation, sorted: seq<Operation>)
    requires Distinct(Ids(sorted)) && op.id !in Ids(sorted)
    ensures Distinct(Ids(InsertOperation(op, sorted)))
    ensures forall o :: o in Ids(InsertOperation(op, sorted)) <==> o == op.id || o in Ids(sorted)
  {
    var inserted := InsertOperation(op, sorted);
    if inserted == [op] + sorted {
      assert inserted[1..] == sorted;
      DistinctCons(op.id, Ids(sorted));
    } else {
      DistinctCons(sorted[0].id, Ids(sorted[1..]));
      InsertKeepsDistinct(op, sorted[1..]);
      assert inserted[1..] == InsertOperation(op, sorted[1..]);
      DistinctCons(sorted[0].id, Ids(inserted[1..]));
    }
  }

  lemma {:induction false} SortingKeepsDistinct(ops: seq<Operation>)
    requires Distinct(Ids(ops))
    ensures Distinct(Ids(SortOperations(ops))) && |SortOperations(ops)| == |ops|
    ensures forall o :: o in Ids(SortOperations(ops)) <==> o in Ids(ops)
  {
    SortingKeepsLength(ops);
    if ops != [] {
      DistinctCons(ops[0].id, Ids(ops[1..]));
      SortingKeepsDistinct(ops[1..]);
      InsertKeepsDistinct(ops[0], SortOperations(ops[1..]));
    }
  }

  ghost predicate AllDecided(rows: map<OperationId, Row>, t: System, ops: seq<Operation>, results: Outcomes) {
    && (forall i :: 0 <= i < |ops| ==> IsDecided(t, ops[i].id, ops[i].kind, results(ops[i].id)))
    && (forall o :: o in rows ==> o in t.rows && t.rows[o] == rows[o])
    && (forall o :: o in t.rows ==> o in rows || o in Ids(ops))
  }

  /**
   * A batch of new operations: each is stored, executed and decided by what
   * executing it gave, with the reply that says so; every other row stays.
   */
  lemma FreshBatchDecidesAll(sys: System, q: RequestId, ops: seq<Operation>, results: Outcomes)
    requires q !in sys.requests && Distinct(Ids(ops)) && forall o :: o in Ids(ops) ==> o !in sys.rows
    ensures AllDecided(sys.rows, Batch(sys, q, ops, results), ops, results)
  {
    FreshIsTaken(sys, q, ops);
    var todo := Working(Ids(SortOperations(ops)), IdSet(Ids(ops)), map[], None);
    var w := System(AddRows(sys.rows, ops), sys.requests[q := todo], sys.replies);
    TakenBatchDecidesAll(w, q, sys.rows, ops, results);
  }

  lemma TakenBatchDecidesAll(w: System, q: RequestId, rows: map<OperationId, Row>, ops: seq<Operation>,
                             results: Outcomes)
    requires Distinct(Ids(ops)) && (forall o :: o in Ids(ops) ==> o !in rows)
    requires w.rows == AddRows(rows, ops) && q in w.requests
    requires w.requests[q] == Working(Ids(SortOperations(ops)), IdSet(Ids(ops)), map[], None)
    ensures AllDecided(rows, Loop(w, q, results, |ops|), ops, results)
  {
    AddRowsIsFresh(rows, ops);
    SortingKeepsDistinct(ops);
    LoopDecidesAll(w, q, results);
    var t := Loop(w, q, results, |ops|);
    forall i | 0 <= i < |ops| ensures IsDecided(t, ops[i].id, ops[i].kind, results(ops[i].id)) {
      FreshRow(rows, ops, i);
    }
  }

  lemma FreshRow(rows: map<OperationId, Row>, ops: seq<Operation>, i: nat)
    requires i < |ops| && Distinct(Ids(ops))
    ensures ops[i].id in Ids(ops) && ops[i].id in AddRows(rows, ops)
    ensures AddRows(rows, ops)[ops[i].id].kind == ops[i].kind
  {
    IdsAt(ops, i);
    AddedRows(rows, ops);
  }

  lemma FreshIsTaken(sys: System, q: RequestId, ops: seq<Operation>)
    requires q !in sys.requests && Distinct(Ids(ops)) && forall o :: o in Ids(ops) ==> o !in sys.rows
    ensures Run(sys, Opening(q, ops)) ==
            System(AddRows(sys.rows, ops),
                   sys.requests[q := Working(Ids(SortOperations(ops)), IdSet(Ids(ops)), map[], None)],
                   sys.replies)
  {
    NoneKnown(ops);
    RunOpening(sys, q, ops);
    assert KnownIds(sys.rows, ops) == {};
    var submitted := Next(sys, Submit(q, ops));
    assert submitted == System(sys.rows, sys.requests[q := Checked(ops, {})], sys.replies);
    var created := Next(submitted, CreateBatch(q));
    assert created == System(AddRows(sys.rows, ops), sys.requests[q := Created(ops, {}, IdSet(Ids(ops)))],
                             sys.replies);
    assert Restrict(created.rows, {}) == map[];
  }

  // ----- An operation that is known already --------------------------------

  lemma KnownIsTaken(sys: System, q: RequestId, op: Operation)
    requires q !in sys.requests && op.id in sys.rows
    ensures Run(sys, Opening(q, [op])) ==
            sys.(requests := sys.requests[q := Working([op.id], {}, map[op.id := sys.rows[op.id]], None)])
  {
    RunOpening(sys, q, [op]);
    var submitted := Next(sys, Submit(q, [op]));
    assert [op][1..] == [] && Ids([op]) == [op.id];
    assert KnownIds(sys.rows, [op]) == {op.id};
    assert NewOperations([op], {op.id}) == NewOperations([op][1..], {op.id}) == [];
    var none: seq<Operation> := [];
    assert Ids(none) == [] && IdSet(Ids(none)) == {} && AddRows(sys.rows, none) == sys.rows;
    assert submitted == sys.(requests := sys.requests[q := Checked([op], {op.id})]);
    var created := Next(submitted, CreateBatch(q));
    assert created == sys.(requests := sys.requests[q := Created([op], {op.id}, {})]);
    assert SortOperations([op]) == InsertOperation(op, SortOperations([op][1..])) == [op];
    assert Restrict(sys.rows, {op.id}) == map[op.id := sys.rows[op.id]];
  }

  /** Processed: it is answered as a duplicate with the stored output. Neither executed nor changed. */
  lemma ProcessedIsAnswered(sys: System, q: RequestId, op: Operation, results: Outcomes)
    requires q !in sys.requests && op.id in sys.rows && sys.rows[op.id].status == Processed
    ensures var t := Batch(sys, q, [op], results);
            t.rows == sys.rows && t.replies == sys.replies + {Reply(op.id, RepliedDuplicate, sys.rows[op.id].output)}
  {
    KnownIsTaken(sys, q, op);
    var w := sys.(requests := sys.requests[q := Working([op.id], {}, map[op.id := sys.rows[op.id]], None)]);
    assert Loop(w, q, results, 1) == Loop(Decide(Next(w, Take(q)), q, results), q, results, 0);
  }

  /** Failed but worth another try: it is executed again, as what it was stored as. */
  lemma FailedIsRetried(sys: System, q: RequestId, op: Operation, results: Outcomes)
    requires q !in sys.requests && op.id in sys.rows && sys.rows[op.id].status == Failed && CanRetry(sys.rows[op.id])
    ensures Retried(sys, Batch(sys, q, [op], results), op.id, results)
  {
    KnownIsTaken(sys, q, op);
    var w := sys.(requests := sys.requests[q := Working([op.id], {}, map[op.id := sys.rows[op.id]], None)]);
    RetryTurn(w, q, op.id, results);
    assert Loop(w, q, results, 1) == Loop(Decide(Next(w, Take(q)), q, results), q, results, 0);
  }

  ghost predicate Retried(sys: System, t: System, o: OperationId, results: Outcomes) {
    && o in sys.rows && IsDecided(t, o, sys.rows[o].kind, results(o))
    && forall other :: other in sys.rows && other != o ==> other in t.rows && t.rows[other] == sys.rows[other]
  }

  lemma RetryTurn(w: System, q: RequestId, o: OperationId, results: Outcomes)
    requires q in w.requests && o in w.rows && w.rows[o].status == Failed && CanRetry(w.rows[o])
    requires w.requests[q] == Working([o], {}, map[o := w.rows[o]], None)
    ensures Retried(w, Decide(Next(w, Take(q)), q, results), o, results)
  {
    var taken := Next(w, Take(q));
    assert taken == w.(rows := w.rows[o := w.rows[o].(status := Pending, errorCode := None)],
                       requests := w.requests[q := Working([o][1..], {}, map[o := w.rows[o]], Some(o))]);
  }

  /** Failed for good, or in other hands: it is answered as failed and left alone. */
  lemma OthersAreLeft(sys: System, q: RequestId, op: Operation, results: Outcomes)
    requires q !in sys.requests && op.id in sys.rows
    requires sys.rows[op.id].status == Pending || (sys.rows[op.id].status == Failed && !CanRetry(sys.rows[op.id]))
    ensures var t := Batch(sys, q, [op], results);
            t.rows == sys.rows && t.replies == sys.replies + {Reply(op.id, RepliedFailed, None)}
  {
    KnownIsTaken(sys, q, op);
    var w := sys.(requests := sys.requests[q := Working([op.id], {}, map[op.id := sys.rows[op.id]], None)]);
    assert Loop(w, q, results, 1) == Loop(Decide(Next(w, Take(q)), q, results), q, results, 0);
  }

  /** An error that may pass: listed so, or of the server, the network or an unknown kind. */
  predicate MayPass(code: string) {
    code in RETRYABLE || "HTTP_5" <= code || "NETWORK_" <= code || "UNKNOWN_" <= code
  }

  /**
   * Only offline registrations are worth another try: always without a code,
   * never after an error listed as final, whatever its case and the space
   * around it, and otherwise exactly after one that may pass.
   */
  lemma RetryBounds(row: Row, code: string)
    requires row.errorCode.Some? ==> exists left, right ::
               row.errorCode.value == left + code + right && AllSpaces(left) && AllSpaces(right)
    requires Unspaced(code)
    ensures row.kind != OfflineRegistration ==> !CanRetry(row)
    ensures row.kind == OfflineRegistration && (row.errorCode.None? || code == "") ==> CanRetry(row)
    ensures row.kind == OfflineRegistration && row.errorCode.Some? && code != "" ==>
            (CanRetry(row) <==> Upper(code) !in NON_RETRYABLE && MayPass(Upper(code)))
  {
    if row.errorCode.Some? {
      var left, right :| row.errorCode.value == left + code + right && AllSpaces(left) && AllSpaces(right);
      TrimIsUnique(left, code, right);
    }
  }

  // ----- A recovery run ----------------------------------------------------

  lemma {:induction false} ListingIs(ids: set<OperationId>)
    ensures Distinct(Listing(ids)) && |Listing(ids)| == |ids| && forall o :: o in Listing(ids) <==> o in ids
    decreases |ids|
  {
    if ids != {} {
      var first, rest := Listing(ids)[0], Listing(ids)[1..];
      assert rest == Listing(ids - {first});
      ListingIs(ids - {first});
      DistinctCons(first, rest);
    }
  }

  lemma {:induction false} RecoverableIs(rows: map<OperationId, Row>, ids: seq<OperationId>)
    requires Distinct(ids)
    ensures Distinct(Recoverable(rows, ids))
    ensures forall o :: o in Recoverable(rows, ids) <==> o in ids && o in rows && CanRetry(rows[o])
  {
    if ids != [] {
      assert ids == [ids[0]] + ids[1..];
      DistinctCons(ids[0], ids[1..]);
      RecoverableIs(rows, ids[1..]);
      DistinctCons(ids[0], Recoverable(rows, ids[1..]));
    }
  }

  /**
   * A recovery run takes up, once each, those of the first failed offline
   * registrations that may be retried: all of them when the limit reaches them all.
   */
  lemma RecoveryTakesFailed(sys: System, q: RequestId, limit: nat)
    requires q !in sys.requests
    ensures var t := Next(sys, StartRecovery(q, limit));
            && t.rows == sys.rows && t.replies == sys.replies && q in t.requests && t.requests[q].Working?
            && var todo := t.requests[q].todo;
               && Distinct(todo) && |todo| <= limit
               && (forall o :: o in todo ==> o in sys.rows && sys.rows[o].status == Failed && CanRetry(sys.rows[o]))
               && (|FailedRegistrations(sys.rows)| <= limit ==>
                   forall o :: o in sys.rows && sys.rows[o].status == Failed && CanRetry(sys.rows[o]) ==> o in todo)
  {
    var listing := Listing(FailedRegistrations(sys.rows));
    ListingIs(FailedRegistrations(sys.rows));
    var first := if |listing| > limit then listing[..limit] else listing;
    assert forall o :: o in first ==> o in listing;
    RecoverableIs(sys.rows, first);
    RecoverableIsShorter(sys.rows, first);
  }

  lemma {:induction false} RecoverableIsShorter(rows: map<OperationId, Row>, ids: seq<OperationId>)
    ensures |Recoverable(rows, ids)| <= |ids|
  {
    if ids != [] { RecoverableIsShorter(rows, ids[1..]); }
  }
}
