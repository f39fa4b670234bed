/**
 * What an import makes of a row, decided by how many registrations of the
 * event carry one of its identifiers and by what the row itself holds.
 */
module ImportOutcomes {
  import opened Wrappers
  import opened Text
  import opened ImportJob

  // ----- Who matches a row -------------------------------------------------

  /** An identifier that is given and not empty. */
  predicate Given(o: Option<string>) { o.Some? && o.value != "" }

  predicate Matches(x: Identity, y: Identity) {
    || (Given(x.externalId) && y.externalId == x.externalId)
    || (Given(x.phone) && y.phone == x.phone)
    || (Given(x.email) && y.email == x.email)
  }

  ghost predicate MatchesNobody(db: Registrations, x: Identity) { forall y :: y in db ==> !Matches(x, y) }

  ghost predicate MatchesOnly(db: Registrations, x: Identity, id: nat) {
    id < |db| && forall i :: 0 <= i < |db| ==> (Matches(x, db[i]) <==> i == id)
  }

  ghost predicate MatchesTwo(db: Registrations, x: Identity) {
    exists i, j :: 0 <= i < j < |db| && Matches(x, db[i]) && Matches(x, db[j])
  }

  /** The event may forbid repeating a phone, an email or an external id; creation checks that first. */
  predicate Forbids(policy: Policy, x: Identity, y: Identity) {
    match policy
    case AnyDuplicates => false
    case ByPhone => Given(x.phone) && y.phone == x.phone
    case ByEmail => Given(x.email) && y.email == x.email
    case ByPhoneOrEmail => (Given(x.phone) && y.phone == x.phone) || (Given(x.email) && y.email == x.email)
    case ByExternalId => Given(x.externalId) && y.externalId == x.externalId
  }

  /** What is stored of an identifier: the text without the spaces around it, or nothing when there is only space. */
  ghost predicate StoredAs(given: Option<string>, stored: Option<string>) {
    || (given.None? && stored.None?)
    || (given.Some? && stored.None? && AllSpaces(given.value))
    || (given.Some? && Given(stored) && Unspaced(stored.value)
        && exists left, right ::
             given.value == left + stored.value + right && AllSpaces(left) && AllSpaces(right))
  }

  ghost predicate IsStored(x: Identity, y: Identity) {
    StoredAs(x.externalId, y.externalId) && StoredAs(x.phone, y.phone) && StoredAs(x.email, y.email)
  }

  lemma TrimToNoneIsStored(o: Option<string>)
    ensures StoredAs(o, TrimToNone(o))
  {
    if o.Some? { var left, right := TrimDropsSpaces(o.value); }
  }

  lemma StoredIsStored(x: Identity)
    ensures IsStored(x, Stored(x))
  {
    TrimToNoneIsStored(x.externalId);
    TrimToNoneIsStored(x.phone);
    TrimToNoneIsStored(x.email);
  }

  lemma LookupFinds(db: Registrations, x: Identity)
    ensures FindExisting(db, x).Nobody? <==> MatchesNobody(db, x)
    ensures forall id: nat :: FindExisting(db, x) == One(id) <==> MatchesOnly(db, x, id)
    ensures FindExisting(db, x).Several? <==> MatchesTwo(db, x)
  {
    var f := FindExisting(db, x);
    FirstMatchFinds(db, x, 0);
    forall i | 0 <= i < |db| ensures Shares(x, db[i]) <==> Matches(x, db[i]) { }
    forall id: nat ensures f == One(id) <==> MatchesOnly(db, x, id) {
      if MatchesOnly(db, x, id) {
        assert Matches(x, db[id]) && !f.Several?;
        assert f.One? ==> Matches(x, db[f.id]);
      }
      if f == One(id) {
        forall i | 0 <= i < |db| ensures Matches(x, db[i]) <==> i == id { }
      }
    }
  }

  lemma TakenIffMatched(db: Registrations, x: Identity)
    ensures Taken(db, x) <==> !MatchesNobody(db, x)
  {
    forall i | 0 <= i < |db| ensures Shares(x, db[i]) <==> Matches(x, db[i]) { }
  }

  lemma PolicedIffForbidden(db: Registrations, policy: Policy, x: Identity)
    ensures Taken(db, Policed(policy, x)) <==> exists y :: y in db && Forbids(policy, x, y)
  {
    forall i | 0 <= i < |db| ensures Shares(Policed(policy, x), db[i]) <==> Forbids(policy, x, db[i]) { }
  }

  // ----- What is decided ----------------------------------------------------

  predicate IsFailed(row: Row, done: Row, error: RowError) {
    done == Row(row.input, Failed, row.registrationId, error)
  }

  predicate IsDuplicateOf(row: Row, done: Row, id: nat) {
    done == Row(row.input, Duplicate, Some(id), DuplicateRegistration)
  }

  predicate IsCreatedAs(row: Row, done: Row, id: nat) { done == Row(row.input, Processed, Some(id), NoError) }

  /** A row that names somebody: a duplicate of the one match, and a failure when there is not exactly one. */
  ghost predicate NamesMatch(db: Registrations, row: Row, x: Identity, done: Row) {
    && (forall id: nat :: MatchesOnly(db, x, id) ==> IsDuplicateOf(row, done, id))
    && ((forall id: nat :: !MatchesOnly(db, x, id)) ==> IsFailed(row, done, DuplicateRegistration))
  }

  /** A row that matched nobody at first: `later` are the registrations when it is created, `stored` what it stores. */
  ghost predicate CreatedIfFree(later: Registrations, row: Row, policy: Policy, stored: Identity,
                                after: Registrations, done: Row)
    requires row.input.Parsed?
  {
    var forbidden := exists y :: y in later && Forbids(policy, stored, y);
    if !row.input.contactValid || (!forbidden && !row.input.fieldsValid) then
      after == later && IsFailed(row, done, ValidationFailed)
    else if forbidden || !MatchesNobody(later, stored) then
      after == later && NamesMatch(later, row, row.input.lookup, done)
    else
      after == later + [stored] && IsCreatedAs(row, done, |later|)
  }

  ghost predicate Decided(db: Registrations, later: Registrations, row: Row, policy: Policy,
                          after: Registrations, done: Row)
  {
    && (row.input.Malformed? ==> after == later && IsFailed(row, done, ValidationFailed))
    && (row.input.Parsed? ==>
          var x := row.input.lookup;
          if MatchesNobody(db, x)
          then exists stored :: IsStored(x, stored) && CreatedIfFree(later, row, policy, stored, after, done)
          else after == later && NamesMatch(db, row, x, done))
  }

  /**
   * What becomes of a row, in every case: it is a duplicate of the one
   * registration it matches; it fails as a duplicate when it matches more; and
   * when it matches nobody, it is created unless it is invalid or somebody has
   * been registered under its identifiers since, for whom it looks once more.
   */
  lemma RowIsDecided(db: Registrations, row: Row, policy: Policy, arrivals: seq<Identity>)
    ensures var (after, done) := ProcessRow(db, row, policy, arrivals);
            Decided(db, InsertAll(db, arrivals), row, policy, after, done)
  {
    var later := InsertAll(db, arrivals);
    if row.input.Parsed? {
      var x := row.input.lookup;
      LookupFinds(db, x);
      if MatchesNobody(db, x) { NewRowIsDecided(db, row, policy, arrivals); }
    }
  }

  lemma NewRowIsDecided(db: Registrations, row: Row, policy: Policy, arrivals: seq<Identity>)
    requires row.input.Parsed? && MatchesNobody(db, row.input.lookup)
    ensures var (after, done) := ProcessRow(db, row, policy, arrivals);
            var stored := Stored(row.input.lookup);
            && IsStored(row.input.lookup, stored)
            && CreatedIfFree(InsertAll(db, arrivals), row, policy, stored, after, done)
  {
    var later, x := InsertAll(db, arrivals), row.input.lookup;
    LookupFinds(db, x);
    LookupFinds(later, x);
    StoredIsStored(x);
    TakenIffMatched(later, Stored(x));
    PolicedIffForbidden(later, policy, Stored(x));
  }

  /** Every pending row of a job is so decided, among the registrations there are when its turn comes. */
  ghost predicate DecidedInTurn(job: Job, before: State, after: State, i: nat)
    requires i < |before.rows| == |after.rows|
  {
    exists db, next: Registrations ::
      && before.db <= db && next <= after.db
      && Decided(db, InsertAll(db, ArrivalsAt(job, i)), before.rows[i], job.policy, next, after.rows[i])
  }

  lemma {:induction false} EveryRowIsDecided(job: Job, s: State, from: nat, i: nat)
    requires from <= i < |s.rows| && AllUnique(s.db) && s.rows[i].status == Pending
    ensures |OnePass(job, s, from).rows| == |s.rows| && DecidedInTurn(job, s, OnePass(job, s, from), i)
    decreases i - from
  {
    var after := OnePass(job, s, from);
    PassOutcome(job, s, from);
    if s.rows[from].status == Pending {
      var next := ProcessAt(job, s, from);
      RowOutcome(s.db, s.rows[from], job.policy, ArrivalsAt(job, from));
      if i == from {
        RowIsDecided(s.db, s.rows[i], job.policy, ArrivalsAt(job, i));
        PassOutcome(job, next, from + 1);
        assert after.rows[i] == next.rows[i] && next.db <= after.db;
        assert Decided(s.db, InsertAll(s.db, ArrivalsAt(job, i)), s.rows[i], job.policy, next.db, after.rows[i]);
      } else {
        EveryRowIsDecided(job, next, from + 1, i);
        TurnComesLater(job, s, next, after, i);
      }
    } else {
      EveryRowIsDecided(job, s, from + 1, i);
    }
  }

  lemma TurnComesLater(job: Job, s: State, next: State, after: State, i: nat)
    requires i < |s.rows| == |next.rows| == |after.rows| && s.db <= next.db && s.rows[i] == next.rows[i]
    requires DecidedInTurn(job, next, after, i)
    ensures DecidedInTurn(job, s, after, i)
  {
    var db, last: Registrations :|
      && next.db <= db && last <= after.db
      && Decided(db, InsertAll(db, ArrivalsAt(job, i)), next.rows[i], job.policy, last, after.rows[i]);
    assert s.db <= db;
    assert Decided(db, InsertAll(db, ArrivalsAt(job, i)), s.rows[i], job.policy, last, after.rows[i]);
  }
}
