/**
 * An import job with duplicate strategy SKIP: rows are taken chunk by chunk
 * while any is PENDING, and each either creates a registration, is a
 * duplicate of one, or fails. Other requests may register people meanwhile.
 */
module ImportJob {
  import opened Wrappers
  import opened Text

  /** The three identifiers that are unique within an event. */
  datatype Identity = Identity(externalId: Option<string>, phone: Option<string>, email: Option<string>)

  /** The registrations of the event; a registration's id is its place. */
  type Registrations = seq<Identity>

  predicate Same(a: Option<string>, b: Option<string>) { a.Some? && a.value != "" && a == b }

  predicate Shares(a: Identity, b: Identity) {
    Same(a.externalId, b.externalId) || Same(a.phone, b.phone) || Same(a.email, b.email)
  }

  predicate Taken(db: Registrations, x: Identity) { exists i :: 0 <= i < |db| && Shares(x, db[i]) }

  ghost predicate AllUnique(db: Registrations) { forall i, j :: 0 <= i < j < |db| ==> !Shares(db[j], db[i]) }

  /** The unique indexes of the table: an insert that repeats an identifier fails. */
  function Insert(db: Registrations, x: Identity): Registrations { if Taken(db, x) then db else db + [x] }

  function InsertAll(db: Registrations, xs: seq<Identity>): Registrations
    decreases |xs|
  {
    if xs == [] then db else InsertAll(Insert(db, xs[0]), xs[1..])
  }

  // ----- Rows ------------------------------------------------------------

  datatype RowStatus = Pending | Processed | Failed | Duplicate | Skipped

  datatype RowError = NoError | ValidationFailed | DuplicateRegistration

  /** What normalizing a row gives: nothing, or identifiers to look up and two checks the creation makes of the rest. */
  datatype Input = Malformed | Parsed(lookup: Identity, contactValid: bool, fieldsValid: bool)

  datatype Row = Row(input: Input, status: RowStatus, registrationId: Option<nat>, error: RowError)

  datatype Policy = AnyDuplicates | ByPhone | ByEmail | ByPhoneOrEmail | ByExternalId

  /** `arrivals` are the registrations other requests insert between a row's first look-up and its creation. */
  datatype Job = Job(policy: Policy, arrivals: seq<seq<Identity>>)

  function ArrivalsAt(job: Job, n: nat): seq<Identity> { if n < |job.arrivals| then job.arrivals[n] else [] }

  function TrimToNone(o: Option<string>): Option<string> {
    if o.None? || Trim(o.value) == "" then None else Some(Trim(o.value))
  }

  /** Creation trims what the look-up did not: an external id behind a prefix with leading space. */
  function Stored(x: Identity): Identity {
    Identity(TrimToNone(x.externalId), TrimToNone(x.phone), TrimToNone(x.email))
  }

  datatype Found = Nobody | One(id: nat) | Several

  function FirstMatch(db: Registrations, x: Identity, from: nat): Found
    requires from <= |db|
    decreases |db| - from
  {
    if from == |db| then Nobody
    else if !Shares(x, db[from]) then FirstMatch(db, x, from + 1)
    else if exists j :: from < j < |db| && Shares(x, db[j]) then Several
    else One(from)
  }

  function FindExisting(db: Registrations, x: Identity): Found { FirstMatch(db, x, 0) }

  ghost predicate IsFound(db: Registrations, x: Identity, f: Found) {
    && (f.Nobody? <==> !Taken(db, x))
    && (f.One? ==> f.id < |db| && Shares(x, db[f.id]) && forall i :: 0 <= i < |db| && Shares(x, db[i]) ==> i == f.id)
    && (f.Several? ==> exists i, j :: 0 <= i < j < |db| && Shares(x, db[i]) && Shares(x, db[j]))
  }

  lemma {:induction false} FirstMatchFinds(db: Registrations, x: Identity, from: nat)
    requires from <= |db| && forall i :: 0 <= i < from ==> !Shares(x, db[i])
    ensures IsFound(db, x, FirstMatch(db, x, from))
    decreases |db| - from
  {
    if from < |db| && !Shares(x, db[from]) { FirstMatchFinds(db, x, from + 1); }
  }

  // ----- One row ---------------------------------------------------------

  /** The event's own duplicate policy, checked before the other fields are. */
  function Policed(policy: Policy, x: Identity): Identity {
    match policy
    case AnyDuplicates => Identity(None, None, None)
    case ByPhone => Identity(None, x.phone, None)
    case ByEmail => Identity(None, None, x.email)
    case ByPhoneOrEmail => Identity(None, x.phone, x.email)
    case ByExternalId => Identity(x.externalId, None, None)
  }

  function Fail(row: Row, error: RowError): Row { row.(status := Failed, error := error) }

  function SkipDuplicate(row: Row, id: nat): Row {
    row.(status := Duplicate, registrationId := Some(id), error := DuplicateRegistration)
  }

  /** A creation that met a conflict looks once more. */
  function AfterConflict(db: Registrations, row: Row, x: Identity): Row {
    var f := FindExisting(db, x);
    if f.One? then SkipDuplicate(row, f.id) else Fail(row, DuplicateRegistration)
  }

  function ProcessRow(db: Registrations, row: Row, policy: Policy, arrivals: seq<Identity>): (Registrations, Row) {
    var later := InsertAll(db, arrivals);
    if row.input.Malformed? then (later, Fail(row, ValidationFailed))
    else
      var x := row.input.lookup;
      var f := FindExisting(db, x);
      if f.Several? then (later, Fail(row, DuplicateRegistration))
      else if f.One? then (later, SkipDuplicate(row, f.id))
      else if !row.input.contactValid then (later, Fail(row, ValidationFailed))
      else if Taken(later, Policed(policy, Stored(x))) then (later, AfterConflict(later, row, x))
      else if !row.input.fieldsValid then (later, Fail(row, ValidationFailed))
      else if Taken(later, Stored(x)) then (later, AfterConflict(later, row, x))
      else (later + [Stored(x)], row.(status := Processed, registrationId := Some(|later|), error := NoError))
  }

  lemma {:induction false} InsertAllKeeps(db: Registrations, xs: seq<Identity>)
    ensures db <= InsertAll(db, xs) && (AllUnique(db) ==> AllUnique(InsertAll(db, xs)))
    decreases |xs|
  {
    if xs != [] { InsertAllKeeps(Insert(db, xs[0]), xs[1..]); }
  }

  lemma TakenStays(db: Registrations, more: Registrations, x: Identity)
    requires db <= more && Taken(db, x)
    ensures Taken(more, x)
  {
    var i :| 0 <= i < |db| && Shares(x, db[i]);
    assert more[i] == db[i];
  }

  lemma PolicedIsWeaker(db: Registrations, policy: Policy, x: Identity)
    requires Taken(db, Policed(policy, x))
    ensures Taken(db, x)
  {
    var i :| 0 <= i < |db| && Shares(Policed(policy, x), db[i]);
    assert Shares(x, db[i]);
  }

  /**
   * What becomes of a row: it creates a registration exactly when it is valid
   * in every respect, nobody matched it, and nobody holds one of its
   * identifiers when it is stored; it is a duplicate only of the one
   * registration that matches it.
   */
  lemma RowOutcome(db: Registrations, row: Row, policy: Policy, arrivals: seq<Identity>)
    requires AllUnique(db)
    ensures var (after, done) := ProcessRow(db, row, policy, arrivals);
            var later := InsertAll(db, arrivals);
            && db <= later <= after && AllUnique(after) && done.status in {Processed, Failed, Duplicate}
            && (done.status == Processed <==>
                  row.input.Parsed? && row.input.contactValid && row.input.fieldsValid
                  && !Taken(db, row.input.lookup) && !Taken(later, Stored(row.input.lookup)))
            && (done.status == Processed ==>
                done.registrationId == Some(|later|) && after == later + [Stored(row.input.lookup)])
            && (done.status != Processed ==> after == later)
            && (done.status == Duplicate ==>
                  row.input.Parsed? && done.registrationId.Some? && done.registrationId.value < |after|
                  && Shares(row.input.lookup, after[done.registrationId.value]))
  {
    var later := InsertAll(db, arrivals);
    InsertAllKeeps(db, arrivals);
    if row.input.Parsed? {
      var x := row.input.lookup;
      FirstMatchFinds(db, x, 0);
      FirstMatchFinds(later, x, 0);
      if Taken(later, Policed(policy, Stored(x))) { PolicedIsWeaker(later, policy, Stored(x)); }
      if !Taken(later, Stored(x)) {
        forall i, j | 0 <= i < j < |later + [Stored(x)]|
          ensures !Shares((later + [Stored(x)])[j], (later + [Stored(x)])[i])
        {
        }
      }
    }
  }

  // ----- The whole job ---------------------------------------------------

  datatype State = State(db: Registrations, rows: seq<Row>)

  function ProcessAt(job: Job, s: State, i: nat): State
    requires i < |s.rows|
  {
    var (db, row) := ProcessRow(s.db, s.rows[i], job.policy, ArrivalsAt(job, i));
    State(db, s.rows[i := row])
  }

  /** One pass over the rows in order, leaving those that are not PENDING. */
  function OnePass(job: Job, s: State, from: nat): State
    requires from <= |s.rows|
    decreases |s.rows| - from
  {
    if from == |s.rows| then s
    else if s.rows[from].status == Pending then OnePass(job, ProcessAt(job, s, from), from + 1)
    else OnePass(job, s, from + 1)
  }

  predicate NonePendingBefore(rows: seq<Row>, n: nat) {
    forall i :: 0 <= i < n && i < |rows| ==> rows[i].status != Pending
  }

  lemma {:induction false} PassSkips(job: Job, s: State, i: nat, n: nat)
    requires i <= n <= |s.rows| && NonePendingBefore(s.rows, n)
    ensures OnePass(job, s, i) == OnePass(job, s, n)
    decreases n - i
  {
    if i < n { PassSkips(job, s, i + 1, n); }
  }

  lemma FirstPendingIsNext(job: Job, s: State, i: nat)
    requires i < |s.rows| && NonePendingBefore(s.rows, i) && s.rows[i].status == Pending && AllUnique(s.db)
    ensures NonePendingBefore(ProcessAt(job, s, i).rows, i + 1) && AllUnique(ProcessAt(job, s, i).db)
    ensures OnePass(job, ProcessAt(job, s, i), 0) == OnePass(job, s, 0)
  {
    RowOutcome(s.db, s.rows[i], job.policy, ArrivalsAt(job, i));
    PassSkips(job, s, 0, i);
    PassSkips(job, ProcessAt(job, s, i), 0, i + 1);
  }

  /** The query of the loop: the first PENDING rows, at most `size` of them. */
  function TakePending(rows: seq<Row>, from: nat, size: nat): seq<nat>
    requires from <= |rows|
    decreases |rows| - from
  {
    if from == |rows| || size == 0 then []
    else if rows[from].status == Pending then [from] + TakePending(rows, from + 1, size - 1)
    else TakePending(rows, from + 1, size)
  }

  predicate NonePending(rows: seq<Row>, from: int, to: int) {
    forall i :: from <= i < to && 0 <= i < |rows| ==> rows[i].status != Pending
  }

  /** The pending rows from row `from` on, in order, each the next pending one; the chunk may end before they do. */
  predicate IsChunkFrom(rows: seq<Row>, chunk: seq<nat>, from: nat)
    decreases |chunk|
  {
    chunk != [] ==>
      && from <= chunk[0] < |rows| && rows[chunk[0]].status == Pending && NonePending(rows, from, chunk[0])
      && IsChunkFrom(rows, chunk[1..], chunk[0] + 1)
  }

  predicate IsChunk(rows: seq<Row>, chunk: seq<nat>) { IsChunkFrom(rows, chunk, 0) }

  lemma {:induction false} ChunkIsTaken(rows: seq<Row>, from: nat, size: nat)
    requires from <= |rows|
    ensures var chunk := TakePending(rows, from, size);
            IsChunkFrom(rows, chunk, from) && |chunk| <= size
            && (chunk == [] && size > 0 ==> NonePending(rows, from, |rows|))
    decreases |rows| - from
  {
    if from < |rows| && size > 0 {
      if rows[from].status == Pending {
        ChunkIsTaken(rows, from + 1, size - 1);
      } else {
        ChunkIsTaken(rows, from + 1, size);
        ChunkFromEarlier(rows, TakePending(rows, from + 1, size), from);
      }
    }
  }

  lemma ChunkFromEarlier(rows: seq<Row>, chunk: seq<nat>, from: nat)
    requires from < |rows| && rows[from].status != Pending && IsChunkFrom(rows, chunk, from + 1)
    ensures IsChunkFrom(rows, chunk, from)
  {
  }

  lemma {:induction false} LaterRowsDecide(rows: seq<Row>, after: seq<Row>, chunk: seq<nat>, from: nat)
    requires IsChunkFrom(rows, chunk, from) && |after| == |rows|
    requires forall i :: from <= i < |rows| ==> after[i] == rows[i]
    ensures IsChunkFrom(after, chunk, from)
    decreases |chunk|
  {
    if chunk != [] { LaterRowsDecide(rows, after, chunk[1..], chunk[0] + 1); }
  }

  /** Rows before the chunk may have been marked; the rest of the chunk is one when its first row is, too. */
  lemma ChunkShrinks(rows: seq<Row>, after: seq<Row>, chunk: seq<nat>)
    requires IsChunk(rows, chunk) && chunk != []
    requires |after| == |rows| && (forall i :: 0 <= i < |rows| && i != chunk[0] ==> after[i] == rows[i])
             && after[chunk[0]].status != Pending
    ensures IsChunk(after, chunk[1..])
  {
    var rest := chunk[1..];
    LaterRowsDecide(rows, after, rest, chunk[0] + 1);
    if rest != [] {
      forall i | 0 <= i < rest[0] ensures after[i].status != Pending {
        if i < chunk[0] { assert NonePending(rows, 0, chunk[0]); }
        else if i > chunk[0] { assert NonePending(after, chunk[0] + 1, rest[0]); }
      }
      assert NonePending(after, 0, rest[0]);
    }
  }

  function Count(rows: seq<Row>, status: RowStatus): nat {
    if rows == [] then 0 else (if rows[0].status == status then 1 else 0) + Count(rows[1..], status)
  }

  lemma {:induction false} CountChanges(rows: seq<Row>, i: nat, row: Row, status: RowStatus)
    requires i < |rows|
    ensures Count(rows[i := row], status) + (if rows[i].status == status then 1 else 0) ==
            Count(rows, status) + if row.status == status then 1 else 0
  {
    if i > 0 {
      CountChanges(rows[1..], i - 1, row, status);
      assert rows[i := row][1..] == rows[1..][i - 1 := row];
    } else {
      assert rows[0 := row][1..] == rows[1..];
    }
  }

  datatype JobStatus = Processing | Completed | PartialFailed | JobFailed

  function GetJobStatus(success: nat, failed: nat, duplicate: nat, skipped: nat, pending: nat): JobStatus {
    if pending > 0 then Processing
    else if failed == 0 then Completed
    else if success == 0 && duplicate == 0 && skipped == 0 then JobFailed
    else PartialFailed
  }

  function Finalize(rows: seq<Row>): JobStatus {
    GetJobStatus(Count(rows, Processed), Count(rows, Failed), Count(rows, Duplicate), Count(rows, Skipped),
                 Count(rows, Pending))
  }

  // ----- What a finished job leaves --------------------------------------

  /** A row of the job that created a registration, and the registration it created. */
  ghost predicate Created(before: State, after: State, i: nat)
    requires |before.rows| == |after.rows|
  {
    && i < |after.rows| && before.rows[i].status == Pending && after.rows[i].status == Processed
    && before.rows[i].input.Parsed? && after.rows[i].registrationId.Some?
    && |before.db| <= after.rows[i].registrationId.value < |after.db|
    && after.db[after.rows[i].registrationId.value] == Stored(before.rows[i].input.lookup)
  }

  ghost predicate BothCreate(before: State, after: State, i: nat, j: nat)
    requires |before.rows| == |after.rows|
  {
    Created(before, after, i) && Created(before, after, j)
  }

  /**
   * Rows not PENDING stay; the others end in one of three states; those PROCESSED
   * each made a registration of their own.
   */
  lemma {:induction false} PassOutcome(job: Job, s: State, from: nat)
    requires from <= |s.rows| && AllUnique(s.db)
    ensures var after := OnePass(job, s, from);
            && |after.rows| == |s.rows| && s.db <= after.db && AllUnique(after.db)
            && (forall i :: 0 <= i < |s.rows| && (i < from || s.rows[i].status != Pending) ==>
                after.rows[i] == s.rows[i])
            && (forall i :: from <= i < |s.rows| && s.rows[i].status == Pending ==>
                after.rows[i].status in {Processed, Failed, Duplicate})
            && (forall i ::
                from <= i < |s.rows| && s.rows[i].status == Pending && after.rows[i].status == Processed ==>
                Created(s, after, i))
            && (forall i, j :: from <= i < j < |s.rows| && BothCreate(s, after, i, j) ==>
                  after.rows[i].registrationId.value < after.rows[j].registrationId.value)
    decreases |s.rows| - from
  {
    if from < |s.rows| {
      if s.rows[from].status == Pending {
        var next := ProcessAt(job, s, from);
        RowOutcome(s.db, s.rows[from], job.policy, ArrivalsAt(job, from));
        PassOutcome(job, next, from + 1);
        var after := OnePass(job, s, from);
        assert after.rows[from] == next.rows[from];
        forall i | from <= i < |s.rows| && s.rows[i].status == Pending && after.rows[i].status == Processed
          ensures Created(s, after, i)
        {
          if i > from { assert Created(next, after, i); }
        }
        forall i, j | from <= i < j < |s.rows| && BothCreate(s, after, i, j)
          ensures after.rows[i].registrationId.value < after.rows[j].registrationId.value
        {
          assert Created(next, after, j);
          if i > from { assert Created(next, after, i) && BothCreate(next, after, i, j); }
        }
      } else {
        PassOutcome(job, s, from + 1);
      }
    }
  }

  lemma {:induction false} CountsPartition(rows: seq<Row>)
    ensures Count(rows, Processed) + Count(rows, Failed) + Count(rows, Duplicate) + Count(rows, Skipped) +
            Count(rows, Pending) == |rows|
  {
    if rows != [] { CountsPartition(rows[1..]); }
  }

  lemma {:induction false} CountIsZero(rows: seq<Row>, status: RowStatus)
    ensures Count(rows, status) == 0 <==> forall i :: 0 <= i < |rows| ==> rows[i].status != status
  {
    if rows != [] {
      CountIsZero(rows[1..], status);
      assert forall i :: 0 <= i < |rows| - 1 ==> rows[1..][i] == rows[i + 1];
      if rows[0].status != status && forall i :: 0 <= i < |rows| - 1 ==> rows[1..][i].status != status {
        forall i | 0 <= i < |rows| ensures rows[i].status != status { if i > 0 { assert rows[i] == rows[1..][i - 1]; } }
      }
    }
  }

  /** When the loop has ended the four counts add up to the rows, and the job's status says which of them failed. */
  lemma {:induction false} FinishedJob(rows: seq<Row>)
    requires NonePendingBefore(rows, |rows|)
    ensures Count(rows, Processed) + Count(rows, Failed) + Count(rows, Duplicate) + Count(rows, Skipped) == |rows|
    ensures Finalize(rows) == Completed <==> forall i :: 0 <= i < |rows| ==> rows[i].status != Failed
    ensures Finalize(rows) == JobFailed <==> rows != [] && forall i :: 0 <= i < |rows| ==> rows[i].status == Failed
    ensures Finalize(rows) != Processing
  {
    CountsPartition(rows);
    CountIsZero(rows, Pending);
    CountIsZero(rows, Failed);
    CountIsZero(rows, Processed);
    CountIsZero(rows, Duplicate);
    CountIsZero(rows, Skipped);
    if forall i :: 0 <= i < |rows| ==> rows[i].status == Failed { assert rows != [] ==> rows[0].status == Failed; }
  }

  predicate Identified(x: Identity) { Stored(x).externalId.Some? || Stored(x).phone.Some? || Stored(x).email.Some? }

  /** A row that passes every check of its own content. */
  predicate Valid(row: Row) { row.input.Parsed? && row.input.contactValid && row.input.fieldsValid }

  /** Nothing new can come of this row: it is invalid, or its stored identifiers are taken. */
  ghost predicate Spent(db: Registrations, row: Row) {
    Valid(row) ==> Taken(db, row.input.lookup) || Taken(db, Stored(row.input.lookup))
  }

  lemma SpentStays(db: Registrations, more: Registrations, row: Row)
    requires Spent(db, row) && db <= more
    ensures Spent(more, row)
  {
    if Valid(row) {
      if Taken(db, row.input.lookup) { TakenStays(db, more, row.input.lookup); }
      if Taken(db, Stored(row.input.lookup)) { TakenStays(db, more, Stored(row.input.lookup)); }
    }
  }

  lemma ProcessedIsSpent(db: Registrations, row: Row, policy: Policy, arrivals: seq<Identity>)
    requires AllUnique(db) && (Valid(row) ==> Identified(row.input.lookup))
    ensures Spent(ProcessRow(db, row, policy, arrivals).0, row)
  {
    RowOutcome(db, row, policy, arrivals);
    var (after, done) := ProcessRow(db, row, policy, arrivals);
    if done.status == Processed {
      var x := Stored(row.input.lookup);
      assert after[|after| - 1] == x && Shares(x, x);
    } else if Valid(row) {
      if Taken(db, row.input.lookup) { TakenStays(db, after, row.input.lookup); }
    }
  }

  lemma {:induction false} PassSpends(job: Job, s: State, from: nat, i: nat)
    requires from <= i < |s.rows| && AllUnique(s.db) && s.rows[i].status == Pending
    requires Valid(s.rows[i]) ==> Identified(s.rows[i].input.lookup)
    ensures Spent(OnePass(job, s, from).db, s.rows[i])
    decreases i - from
  {
    if s.rows[from].status == Pending {
      var next := ProcessAt(job, s, from);
      RowOutcome(s.db, s.rows[from], job.policy, ArrivalsAt(job, from));
      if i == from {
        ProcessedIsSpent(s.db, s.rows[i], job.policy, ArrivalsAt(job, i));
        PassOutcome(job, next, from + 1);
        SpentStays(next.db, OnePass(job, s, from).db, s.rows[i]);
      } else {
        PassSpends(job, next, from + 1, i);
      }
    } else {
      PassSpends(job, s, from + 1, i);
    }
  }

  lemma {:induction false} SpentRowsCreateNothing(job: Job, s: State, from: nat)
    requires from <= |s.rows| && AllUnique(s.db) && forall i :: from <= i < |s.rows| ==> Spent(s.db, s.rows[i])
    ensures |OnePass(job, s, from).rows| == |s.rows|
    ensures forall i :: from <= i < |s.rows| && s.rows[i].status == Pending ==>
            OnePass(job, s, from).rows[i].status != Processed
    decreases |s.rows| - from
  {
    if from < |s.rows| {
      if s.rows[from].status == Pending {
        var next := ProcessAt(job, s, from);
        InsertAllKeeps(s.db, ArrivalsAt(job, from));
        RowOutcome(s.db, s.rows[from], job.policy, ArrivalsAt(job, from));
        SpentStays(s.db, InsertAll(s.db, ArrivalsAt(job, from)), s.rows[from]);
        forall i | from < i < |s.rows| ensures Spent(next.db, next.rows[i]) { SpentStays(s.db, next.db, s.rows[i]); }
        PassOutcome(job, next, from + 1);
        SpentRowsCreateNothing(job, next, from + 1);
      } else {
        SpentRowsCreateNothing(job, s, from + 1);
      }
    }
  }

  // ----- Rows without an identifier --------------------------------------

  predicate Blank(o: Option<string>) { o.Some? && Trim(o.value) == "" }

  /** Whoever stores a registration trims its identifiers and drops those that are blank. */
  predicate Clean(x: Identity) { !Blank(x.externalId) && !Blank(x.phone) && !Blank(x.email) }

  predicate AllClean(db: Registrations) { forall i :: 0 <= i < |db| ==> Clean(db[i]) }

  predicate CleanArrivals(job: Job) { forall n :: 0 <= n < |job.arrivals| ==> AllClean(job.arrivals[n]) }

  lemma StoredIsClean(x: Identity)
    ensures Clean(Stored(x))
  {
    if x.externalId.Some? { TrimIsIdempotent(x.externalId.value); }
    if x.phone.Some? { TrimIsIdempotent(x.phone.value); }
    if x.email.Some? { TrimIsIdempotent(x.email.value); }
  }

  lemma {:induction false} InsertAllIsClean(db: Registrations, xs: seq<Identity>)
    requires AllClean(db) && AllClean(xs)
    ensures AllClean(InsertAll(db, xs))
    decreases |xs|
  {
    if xs != [] { InsertAllIsClean(Insert(db, xs[0]), xs[1..]); }
  }

  lemma RowKeepsClean(db: Registrations, row: Row, policy: Policy, arrivals: seq<Identity>)
    requires AllUnique(db) && AllClean(db) && AllClean(arrivals)
    ensures AllClean(ProcessRow(db, row, policy, arrivals).0)
  {
    RowOutcome(db, row, policy, arrivals);
    InsertAllIsClean(db, arrivals);
    if row.input.Parsed? { StoredIsClean(row.input.lookup); }
  }

  lemma {:induction false} PassKeepsClean(job: Job, s: State, from: nat)
    requires from <= |s.rows| && AllUnique(s.db) && AllClean(s.db) && CleanArrivals(job)
    ensures AllClean(OnePass(job, s, from).db)
    decreases |s.rows| - from
  {
    if from < |s.rows| {
      if s.rows[from].status == Pending {
        RowOutcome(s.db, s.rows[from], job.policy, ArrivalsAt(job, from));
        RowKeepsClean(s.db, s.rows[from], job.policy, ArrivalsAt(job, from));
        PassKeepsClean(job, ProcessAt(job, s, from), from + 1);
      } else {
        PassKeepsClean(job, s, from + 1);
      }
    }
  }

  lemma NobodySharesNothing(db: Registrations, x: Identity)
    requires AllClean(db) && !Identified(x)
    ensures !Taken(db, x) && !Taken(db, Stored(x))
  {
  }

  /** A valid row with no identifier creates a registration whenever it is processed. */
  lemma UnidentifiedCreates(db: Registrations, row: Row, policy: Policy, arrivals: seq<Identity>)
    requires AllUnique(db) && AllClean(db) && AllClean(arrivals) && Valid(row) && !Identified(row.input.lookup)
    ensures ProcessRow(db, row, policy, arrivals).1.status == Processed
  {
    RowOutcome(db, row, policy, arrivals);
    InsertAllIsClean(db, arrivals);
    NobodySharesNothing(db, row.input.lookup);
    NobodySharesNothing(InsertAll(db, arrivals), row.input.lookup);
  }

  lemma {:induction false} PassCreatesUnidentified(job: Job, s: State, from: nat, i: nat)
    requires from <= i < |s.rows| && AllUnique(s.db) && AllClean(s.db) && CleanArrivals(job)
    requires s.rows[i].status == Pending && Valid(s.rows[i]) && !Identified(s.rows[i].input.lookup)
    ensures |OnePass(job, s, from).rows| == |s.rows| && OnePass(job, s, from).rows[i].status == Processed
    decreases i - from
  {
    PassOutcome(job, s, from);
    if s.rows[from].status == Pending {
      var next := ProcessAt(job, s, from);
      RowOutcome(s.db, s.rows[from], job.policy, ArrivalsAt(job, from));
      if i == from {
        UnidentifiedCreates(s.db, s.rows[i], job.policy, ArrivalsAt(job, i));
        PassOutcome(job, next, from + 1);
      } else {
        RowKeepsClean(s.db, s.rows[from], job.policy, ArrivalsAt(job, from));
        PassCreatesUnidentified(job, next, from + 1, i);
      }
    } else {
      PassCreatesUnidentified(job, s, from + 1, i);
    }
  }

  // ----- Importing again -------------------------------------------------

  predicate AllPending(rows: seq<Row>) { forall i :: 0 <= i < |rows| ==> rows[i].status == Pending }

  ghost predicate CreatesNone(job: Job, db: Registrations, rows: seq<Row>) {
    forall i :: 0 <= i < |rows| ==>
      i < |OnePass(job, State(db, rows), 0).rows| && OnePass(job, State(db, rows), 0).rows[i].status != Processed
  }

  /** No later import of the rows creates a registration, whatever is registered before and during it. */
  ghost predicate NeverCreatesAgain(db: Registrations, rows: seq<Row>) {
    forall second, later: Registrations :: AllUnique(later) && db <= later ==> CreatesNone(second, later, rows)
  }

  lemma IdentifiedRowsCreateNone(first: Job, second: Job, s: State, later: Registrations)
    requires AllUnique(s.db) && AllPending(s.rows) && AllUnique(later) && OnePass(first, s, 0).db <= later
    requires forall i :: 0 <= i < |s.rows| && Valid(s.rows[i]) ==> Identified(s.rows[i].input.lookup)
    ensures CreatesNone(second, later, s.rows)
  {
    forall i | 0 <= i < |s.rows| ensures Spent(later, s.rows[i]) {
      PassSpends(first, s, 0, i);
      SpentStays(OnePass(first, s, 0).db, later, s.rows[i]);
    }
    SpentRowsCreateNothing(second, State(later, s.rows), 0);
  }

  /**
   * Importing the same rows again, at any later time, creates no registration
   * exactly when every valid row carries an identifier. Malformed and invalid
   * rows need none: they create nothing at any time.
   */
  lemma ReimportCreatesNothingIffIdentified(first: Job, s: State)
    requires AllUnique(s.db) && AllPending(s.rows) && AllClean(s.db) && CleanArrivals(first)
    ensures NeverCreatesAgain(OnePass(first, s, 0).db, s.rows) <==>
            forall i :: 0 <= i < |s.rows| && Valid(s.rows[i]) ==> Identified(s.rows[i].input.lookup)
  {
    var db := OnePass(first, s, 0).db;
    PassOutcome(first, s, 0);
    if i :| 0 <= i < |s.rows| && Valid(s.rows[i]) && !Identified(s.rows[i].input.lookup) {
      PassKeepsClean(first, s, 0);
      UnidentifiedRowIsCreatedAgain(first, s, first, db, i);
      assert !CreatesNone(first, db, s.rows);
    } else {
      forall second, later: Registrations | AllUnique(later) && db <= later ensures CreatesNone(second, later, s.rows) {
        IdentifiedRowsCreateNone(first, second, s, later);
      }
    }
  }

  /** A valid row with no identifier is created by the first import and by every later one. */
  lemma UnidentifiedRowIsCreatedAgain(first: Job, s: State, second: Job, later: Registrations, i: nat)
    requires AllUnique(s.db) && AllClean(s.db) && CleanArrivals(first) && i < |s.rows|
    requires AllUnique(later) && AllClean(later) && CleanArrivals(second)
    requires s.rows[i].status == Pending && Valid(s.rows[i]) && !Identified(s.rows[i].input.lookup)
    ensures |OnePass(first, s, 0).rows| == |s.rows| && OnePass(first, s, 0).rows[i].status == Processed
    ensures var again := OnePass(second, State(later, s.rows), 0);
            |again.rows| == |s.rows| && again.rows[i].status == Processed
  {
    PassCreatesUnidentified(first, s, 0, i);
    PassCreatesUnidentified(second, State(later, s.rows), 0, i);
  }

  /**
   * The job stops after a row's registration is stored and before the row is
   * marked: the row is still PENDING. Taken up again, it creates a second
   * registration exactly when it carries no identifier.
   */
  lemma StoppedRowCreatesAgainIffUnidentified(db: Registrations, row: Row, policy: Policy, arrivals: seq<Identity>,
                                              later: Registrations, during: seq<Identity>)
    requires AllUnique(db) && ProcessRow(db, row, policy, arrivals).1.status == Processed
    requires ProcessRow(db, row, policy, arrivals).0 <= later && AllUnique(later)
    requires AllClean(later) && AllClean(during)
    ensures ProcessRow(later, row, policy, during).1.status == Processed <==> !Identified(row.input.lookup)
  {
    RowOutcome(db, row, policy, arrivals);
    RowOutcome(later, row, policy, during);
    if Identified(row.input.lookup) {
      ProcessedIsSpent(db, row, policy, arrivals);
      SpentStays(ProcessRow(db, row, policy, arrivals).0, later, row);
      SpentStays(later, InsertAll(later, during), row);
      if Taken(later, Stored(row.input.lookup)) {
        TakenStays(later, InsertAll(later, during), Stored(row.input.lookup));
      }
    } else {
      UnidentifiedCreates(later, row, policy, during);
    }
  }

  class Import {
    var db: Registrations
    var rows: seq<Row>

    constructor (db: Registrations, rows: seq<Row>)
      ensures this.db == db && this.rows == rows
    {
      this.db, this.rows := db, rows;
    }

    function Now(): State
      reads this
    {
      State(db, rows)
    }

    method ProcessImportRow(job: Job, i: nat)
      requires i < |rows|
      modifies this
      ensures Now() == ProcessAt(job, old(Now()), i)
    {
      var row := rows[i];
      var x := if row.input.Parsed? then row.input.lookup else Identity(None, None, None);
      var existing := FindExisting(db, x);
      db := InsertAll(db, ArrivalsAt(job, i));
      if row.input.Malformed? {
        rows := rows[i := Fail(row, ValidationFailed)];
      } else if existing.Several? {
        rows := rows[i := Fail(row, DuplicateRegistration)];
      } else if existing.One? {
        rows := rows[i := SkipDuplicate(row, existing.id)];
      } else if !row.input.contactValid {
        rows := rows[i := Fail(row, ValidationFailed)];
      } else if Taken(db, Policed(job.policy, Stored(x))) {
        rows := rows[i := AfterConflict(db, row, x)];
      } else if !row.input.fieldsValid {
        rows := rows[i := Fail(row, ValidationFailed)];
      } else if Taken(db, Stored(x)) {
        rows := rows[i := AfterConflict(db, row, x)];
      } else {
        rows := rows[i := row.(status := Processed, registrationId := Some(|db|), error := NoError)];
        db := db + [Stored(x)];
      }
    }

    method ProcessChunk(job: Job, chunk: seq<nat>)
      requires IsChunk(rows, chunk) && AllUnique(db)
      modifies this
      ensures |rows| == old(|rows|) && AllUnique(db)
      ensures OnePass(job, Now(), 0) == OnePass(job, old(Now()), 0)
      ensures Count(rows, Pending) == Count(old(rows), Pending) - |chunk|
    {
      var k := 0;
      while k < |chunk|
        invariant 0 <= k <= |chunk| && |rows| == old(|rows|) && AllUnique(db)
        invariant IsChunk(rows, chunk[k..])
        invariant OnePass(job, Now(), 0) == OnePass(job, old(Now()), 0)
        invariant Count(rows, Pending) == Count(old(rows), Pending) - k
      {
        ghost var s := Now();
        assert chunk[k..][0] == chunk[k];
        FirstPendingIsNext(job, s, chunk[k]);
        RowOutcome(db, rows[chunk[k]], job.policy, ArrivalsAt(job, chunk[k]));
        CountChanges(rows, chunk[k], ProcessRow(db, rows[chunk[k]], job.policy, ArrivalsAt(job, chunk[k])).1, Pending);
        ProcessImportRow(job, chunk[k]);
        ChunkShrinks(s.rows, rows, chunk[k..]);
        assert chunk[k..][1..] == chunk[k + 1..];
        k := k + 1;
      }
    }

    /** Ends for every chunk size, and leaves what one pass over the rows would. */
    method ProcessImportJob(job: Job, configured: nat) returns (status: JobStatus)
      requires AllUnique(db)
      modifies this
      ensures Now() == OnePass(job, old(Now()), 0) && AllUnique(db)
      ensures NonePendingBefore(rows, |rows|) && status == Finalize(rows)
    {
      var chunkSize := if configured < 50 then 50 else configured;
      while true
        invariant |rows| == old(|rows|) && AllUnique(db)
        invariant OnePass(job, Now(), 0) == OnePass(job, old(Now()), 0)
        decreases Count(rows, Pending)
      {
        var chunk := TakePending(rows, 0, chunkSize);
        ChunkIsTaken(rows, 0, chunkSize);
        if chunk == [] { break; }
        ProcessChunk(job, chunk);
      }
      PassSkips(job, Now(), 0, |rows|);
      status := Finalize(rows);
    }
  }
}
