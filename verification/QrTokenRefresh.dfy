/**
 * Issuing the one QR token of a registration: read the row, draw a token id,
 * compare-and-set or create, read again. Every database access is one step,
 * so generate and revoke calls interleave freely. The table is keyed by the
 * registration, which its unique index makes a key.
 */
module QrTokenRefresh {
  import opened Wrappers

  type RegistrationId = nat
  type CallId = nat
  type TokenId = nat

  datatype Status = Active | Revoked | Expired

  datatype Row = Row(tokenId: TokenId, status: Status)

  datatype Stage =
    | Starting
    | Drawing(seen: Option<Row>)
    | Writing(seen: Option<Row>, drawn: TokenId)
    | FetchingOwn      // the conditional update changed the row
    | FetchingWinner   // someone else changed it first

  datatype Generate = Generate(registration: RegistrationId, stage: Stage)

  datatype Returned = Returned(call: CallId, registration: RegistrationId, tokenId: TokenId)

  /** `returned` records every normal return; a call id names one call. */
  datatype System = System(rows: map<RegistrationId, Row>, calls: map<CallId, Generate>, returned: set<Returned>)

  datatype Step =
    | Start(call: CallId, registration: RegistrationId)
    | ReadExisting(call: CallId)
    | Draw(call: CallId, tokenId: TokenId)
    | Write(call: CallId)
    | Fetch(call: CallId)
    | Revoke(registration: RegistrationId)
    | Abandon(call: CallId)

  predicate Taken(rows: map<RegistrationId, Row>, tokenId: TokenId) {
    exists r :: r in rows && rows[r].tokenId == tokenId
  }

  predicate HasReturned(sys: System, call: CallId) { exists x :: x in sys.returned && x.call == call }

  function Return(sys: System, call: CallId, tokenId: TokenId): System
    requires call in sys.calls
  {
    sys.(calls := sys.calls - {call}, returned :=
         sys.returned + {Returned(call, sys.calls[call].registration, tokenId)})
  }

  function Throw(sys: System, call: CallId): System {
    sys.(calls := sys.calls - {call})
  }

  function Advance(sys: System, call: CallId, stage: Stage): System
    requires call in sys.calls
  {
    sys.(calls := sys.calls[call := sys.calls[call].(stage := stage)])
  }

  function WriteStep(sys: System, call: CallId): System
    requires call in sys.calls && sys.calls[call].stage.Writing?
  {
    var r, seen, drawn := sys.calls[call].registration, sys.calls[call].stage.seen, sys.calls[call].stage.drawn;
    match seen
    case Some(row) =>
      // updateMany on the id, token id and status that were read
      if r !in sys.rows || sys.rows[r] != row then Advance(sys, call, FetchingWinner)
      else if Taken(sys.rows, drawn) then Throw(sys, call)
      else Advance(sys.(rows := sys.rows[r := Row(drawn, Active)]), call, FetchingOwn)
    case None =>
      // create under the unique indexes on registration and token id
      if r in sys.rows || Taken(sys.rows, drawn) then Advance(sys, call, FetchingWinner)
      else Return(sys.(rows := sys.rows[r := Row(drawn, Active)]), call, drawn)
  }

  function Next(sys: System, step: Step): System {
    match step
    case Start(call, r) =>
      if call in sys.calls || HasReturned(sys, call) then sys
      else sys.(calls := sys.calls[call := Generate(r, Starting)])
    case ReadExisting(call) =>
      if call !in sys.calls || !sys.calls[call].stage.Starting? then sys
      else
        var seen := Lookup(sys.rows, sys.calls[call].registration);
        if seen.Some? && seen.value.status == Active then Return(sys, call, seen.value.tokenId)
        else Advance(sys, call, Drawing(seen))
    case Draw(call, tokenId) =>
      if call !in sys.calls || !sys.calls[call].stage.Drawing? || Taken(sys.rows, tokenId) then sys
      else Advance(sys, call, Writing(sys.calls[call].stage.seen, tokenId))
    case Write(call) =>
      if call !in sys.calls || !sys.calls[call].stage.Writing? then sys else WriteStep(sys, call)
    case Fetch(call) =>
      if call !in sys.calls then sys
      else
        var r, stage := sys.calls[call].registration, sys.calls[call].stage;
        if stage.FetchingOwn? then
          if r in sys.rows then Return(sys, call, sys.rows[r].tokenId) else Throw(sys, call)
        else if stage.FetchingWinner? then
          if r in sys.rows && sys.rows[r].status == Active then Return(sys, call, sys.rows[r].tokenId)
          else Throw(sys, call)
        else sys
    case Revoke(r) =>
      if r in sys.rows then sys.(rows := sys.rows[r := sys.rows[r].(status := Revoked)]) else sys
    case Abandon(call) => Throw(sys, call)
  }

  function Run(sys: System, steps: seq<Step>): System
    decreases |steps|
  {
    if steps == [] then sys else Run(Next(sys, steps[0]), steps[1..])
  }

  // ----- Safety of every step ------------------------------------------

  ghost predicate IsActive(sys: System, r: RegistrationId, tokenId: TokenId) {
    r in sys.rows && sys.rows[r] == Row(tokenId, Active)
  }

  /** Token ids stay unique, a call only ever acts on a row it saw as not active, and it returns once. */
  ghost predicate Inv(sys: System) {
    && (forall r1, r2 :: r1 in sys.rows && r2 in sys.rows && sys.rows[r1].tokenId == sys.rows[r2].tokenId ==> r1 == r2)
    && (forall c :: c in sys.calls ==> SeenInactive(sys.calls[c].stage))
    && (forall x :: x in sys.returned ==> x.call !in sys.calls)
  }

  ghost predicate SeenInactive(stage: Stage) {
    (stage.Drawing? || stage.Writing?) && stage.seen.Some? ==> stage.seen.value.status != Active
  }

  lemma TokensStayUnique(sys: System, step: Step)
    requires Inv(sys)
    ensures var t := Next(sys, step);
            forall r1, r2 :: r1 in t.rows && r2 in t.rows && t.rows[r1].tokenId == t.rows[r2].tokenId ==> r1 == r2
  {
  }

  lemma StagesStaySeen(sys: System, step: Step)
    requires Inv(sys)
    ensures forall c :: c in Next(sys, step).calls ==> SeenInactive(Next(sys, step).calls[c].stage)
  {
    var t := Next(sys, step);
    forall c | c in t.calls ensures SeenInactive(t.calls[c].stage) {
      if c in sys.calls { assert SeenInactive(sys.calls[c].stage); }
    }
  }

  lemma CallsReturnOnce(sys: System, step: Step)
    requires Inv(sys)
    ensures forall x :: x in Next(sys, step).returned ==> x.call !in Next(sys, step).calls
  {
  }

  lemma StepKeepsInv(sys: System, step: Step)
    requires Inv(sys)
    ensures Inv(Next(sys, step))
  {
    TokensStayUnique(sys, step);
    StagesStaySeen(sys, step);
    CallsReturnOnce(sys, step);
  }

  lemma WriteKeepsRow(sys: System, step: Step, r: RegistrationId, t: TokenId)
    requires Inv(sys) && IsActive(sys, r, t) && step != Revoke(r)
    ensures IsActive(Next(sys, step), r, t)
  {
    if step.Write? && step.call in sys.calls && sys.calls[step.call].stage.Writing? {
      assert SeenInactive(sys.calls[step.call].stage);
    }
  }

  /** An active token is never replaced: only a revocation may change its row, and only its status. */
  lemma StepKeepsActive(sys: System, step: Step)
    requires Inv(sys)
    ensures Inv(Next(sys, step))
    ensures forall r, t :: IsActive(sys, r, t) && step != Revoke(r) ==> IsActive(Next(sys, step), r, t)
    ensures forall r :: r in sys.rows ==> r in Next(sys, step).rows
  {
    StepKeepsInv(sys, step);
    forall r, t | IsActive(sys, r, t) && step != Revoke(r) ensures IsActive(Next(sys, step), r, t) {
      WriteKeepsRow(sys, step, r, t);
    }
  }

  predicate Revokes(steps: seq<Step>, r: RegistrationId) {
    exists k :: 0 <= k < |steps| && steps[k] == Revoke(r)
  }

  lemma {:induction false} ActiveIsNeverReplaced(sys: System, steps: seq<Step>, r: RegistrationId, tokenId: TokenId)
    requires Inv(sys) && IsActive(sys, r, tokenId) && !Revokes(steps, r)
    ensures Inv(Run(sys, steps)) && IsActive(Run(sys, steps), r, tokenId)
    decreases |steps|
  {
    if steps != [] {
      assert steps[0] != Revoke(r);
      StepKeepsActive(sys, steps[0]);
      assert forall k :: 0 <= k < |steps[1..]| ==> steps[1..][k] == steps[k + 1];
      ActiveIsNeverReplaced(Next(sys, steps[0]), steps[1..], r, tokenId);
    }
  }

  // ----- Overlapping calls agree ---------------------------------------

  /** A call of `r` is still to re-read its own update of a row that is active no longer. */
  predicate Outdated(sys: System, r: RegistrationId) {
    && r in sys.rows && sys.rows[r].status != Active
    && exists c :: c in sys.calls && sys.calls[c] == Generate(r, FetchingOwn)
  }

  /**
   * Of the calls that are not among `others`: whoever returned for `r` since
   * the window opened, or is about to fetch its own update, left the row active.
   */
  ghost predicate Agreed(sys: System, before: set<Returned>, others: set<CallId>, r: RegistrationId) {
    && (forall x :: x in sys.returned - before && x.registration == r && x.call !in others ==>
        IsActive(sys, r, x.tokenId))
    && (forall c :: c in sys.calls && c !in others && sys.calls[c] == Generate(r, FetchingOwn) && r in sys.rows ==>
          sys.rows[r].status == Active)
  }

  lemma StepKeepsAgreed(sys: System, step: Step, before: set<Returned>, others: set<CallId>, r: RegistrationId)
    requires Inv(sys) && Agreed(sys, before, others, r) && step != Revoke(r)
    ensures Agreed(Next(sys, step), before, others, r)
  {
    StepKeepsActive(sys, step);
    ReturnsStayAgreed(sys, step, before, others, r);
    var t := Next(sys, step);
    forall c | c in t.calls && c !in others && t.calls[c] == Generate(r, FetchingOwn) && r in t.rows
      ensures t.rows[r].status == Active
    {
      FetchesStayActive(sys, step, c, r);
    }
  }

  /** A call that is to re-read its own update finds the row active: it just wrote it, or it could before. */
  lemma FetchesStayActive(sys: System, step: Step, c: CallId, r: RegistrationId)
    requires Inv(sys) && step != Revoke(r)
    requires c in Next(sys, step).calls && Next(sys, step).calls[c] == Generate(r, FetchingOwn)
    requires c in sys.calls && sys.calls[c] == Generate(r, FetchingOwn) && r in sys.rows ==>
               sys.rows[r].status == Active
    requires r in Next(sys, step).rows
    ensures Next(sys, step).rows[r].status == Active
  {
    if c in sys.calls && sys.calls[c].stage.FetchingOwn? && r in sys.rows {
      WriteKeepsRow(sys, step, r, sys.rows[r].tokenId);
    }
  }

  lemma ReturnsStayAgreed(sys: System, step: Step, before: set<Returned>, others: set<CallId>, r: RegistrationId)
    requires Inv(sys) && Agreed(sys, before, others, r) && step != Revoke(r)
    ensures var t := Next(sys, step);
            forall x :: x in t.returned - before && x.registration == r && x.call !in others ==>
                          IsActive(t, r, x.tokenId)
  {
    var t := Next(sys, step);
    forall x | x in t.returned - before && x.registration == r && x.call !in others ensures IsActive(t, r, x.tokenId) {
      if x in sys.returned { WriteKeepsRow(sys, step, r, x.tokenId); }
    }
  }

  lemma {:induction false} RunKeepsAgreed(sys: System, steps: seq<Step>, before: set<Returned>, others: set<CallId>,
                                          r: RegistrationId)
    requires Inv(sys) && Agreed(sys, before, others, r) && !Revokes(steps, r)
    ensures Agreed(Run(sys, steps), before, others, r)
    decreases |steps|
  {
    if steps != [] {
      assert steps[0] != Revoke(r);
      StepKeepsAgreed(sys, steps[0], before, others, r);
      StepKeepsActive(sys, steps[0]);
      assert forall k :: 0 <= k < |steps[1..]| ==> steps[1..][k] == steps[k + 1];
      RunKeepsAgreed(Next(sys, steps[0]), steps[1..], before, others, r);
    }
  }

  /** A normal return for `r` inside the window. */
  predicate ReturnsIn(sys: System, steps: seq<Step>, r: RegistrationId, x: Returned) {
    x in Run(sys, steps).returned - sys.returned && x.registration == r
  }

  /**
   * However many calls overlap, and whatever calls were in flight before: two
   * calls that begin and return normally in a window without a revocation
   * return the same token id, and it is the active one.
   */
  lemma OverlappingCallsAgree(sys: System, steps: seq<Step>, r: RegistrationId, a: Returned, b: Returned)
    requires Inv(sys) && !Revokes(steps, r) && ReturnsIn(sys, steps, r, a) && ReturnsIn(sys, steps, r, b)
    requires a.call !in sys.calls && b.call !in sys.calls
    ensures a.tokenId == b.tokenId && IsActive(Run(sys, steps), r, a.tokenId)
  {
    RunKeepsAgreed(sys, steps, sys.returned, sys.calls.Keys, r);
  }

  /** All calls that return in the window, those in flight when it opens included, return one token id. */
  ghost predicate AllAgree(sys: System, r: RegistrationId) {
    forall steps, a, b :: !Revokes(steps, r) && ReturnsIn(sys, steps, r, a) && ReturnsIn(sys, steps, r, b) ==>
      a.tokenId == b.tokenId
  }

  /**
   * Calls in flight agree with all others, over every window without a
   * revocation, exactly when none of them is to re-read an update that a
   * revocation has outdated already.
   */
  lemma AllAgreeUnlessOutdated(sys: System, r: RegistrationId)
    requires Inv(sys)
    ensures AllAgree(sys, r) <==> !Outdated(sys, r)
  {
    if Outdated(sys, r) {
      var c :| c in sys.calls && sys.calls[c] == Generate(r, FetchingOwn);
      OutdatedCallsDisagree(sys, r, c);
    } else {
      forall steps, a, b | !Revokes(steps, r) && ReturnsIn(sys, steps, r, a) && ReturnsIn(sys, steps, r, b)
        ensures a.tokenId == b.tokenId
      {
        RunKeepsAgreed(sys, steps, sys.returned, {}, r);
      }
    }
  }

  lemma {:induction false} SomethingUnused(used: set<nat>)
    ensures exists n: nat :: n !in used && forall m :: m in used ==> m < n
  {
    if used == {} { assert 0 !in used; }
    else {
      var m :| m in used;
      SomethingUnused(used - {m});
      var n: nat :| n !in used - {m} && forall k :: k in used - {m} ==> k < n;
      assert used == (used - {m}) + {m};
      var bound := if m < n then n else m + 1;
      assert bound !in used && forall k :: k in used ==> k < bound;
    }
  }

  /** An undisturbed call up to the update of a row that is not active. */
  function RefreshSteps(d: CallId, r: RegistrationId, drawn: TokenId): seq<Step> {
    [Start(d, r), ReadExisting(d), Draw(d, drawn), Write(d)]
  }

  lemma RefreshReplaces(sys: System, d: CallId, r: RegistrationId, drawn: TokenId)
    requires r in sys.rows && sys.rows[r].status != Active && !Taken(sys.rows, drawn)
    requires d !in sys.calls && !HasReturned(sys, d)
    ensures Run(sys, RefreshSteps(d, r, drawn)) ==
            System(sys.rows[r := Row(drawn, Active)], sys.calls[d := Generate(r, FetchingOwn)], sys.returned)
  {
    var stale := sys.rows[r];
    var s1 := System(sys.rows, sys.calls[d := Generate(r, Starting)], sys.returned);
    var s2 := System(sys.rows, sys.calls[d := Generate(r, Drawing(Some(stale)))], sys.returned);
    var s3 := System(sys.rows, sys.calls[d := Generate(r, Writing(Some(stale), drawn))], sys.returned);
    assert s1 == Next(sys, Start(d, r)) && s2 == Next(s1, ReadExisting(d)) && s3 == Next(s2, Draw(d, drawn));
    RunFour(sys, RefreshSteps(d, r, drawn));
  }

  lemma FetchReturnsOwn(sys: System, c: CallId, r: RegistrationId)
    requires c in sys.calls && sys.calls[c] == Generate(r, FetchingOwn) && r in sys.rows
    ensures Run(sys, [Fetch(c)]) ==
            System(sys.rows, sys.calls - {c}, sys.returned + {Returned(c, r, sys.rows[r].tokenId)})
  {
    assert [Fetch(c)][1..] == [];
    assert Run(sys, [Fetch(c)]) == Run(Next(sys, Fetch(c)), []);
  }

  /** The outdated call returns first; a new call then replaces the token and returns its own. */
  lemma OutdatedCallsDisagree(sys: System, r: RegistrationId, c: CallId)
    requires Inv(sys) && r in sys.rows && sys.rows[r].status != Active
    requires c in sys.calls && sys.calls[c] == Generate(r, FetchingOwn)
    ensures !AllAgree(sys, r)
  {
    SomethingUnused(sys.calls.Keys + set x | x in sys.returned :: x.call);
    var d: nat :| d !in sys.calls.Keys + (set x | x in sys.returned :: x.call);
    SomethingUnused(set q | q in sys.rows :: sys.rows[q].tokenId);
    var drawn: nat :| drawn !in (set q | q in sys.rows :: sys.rows[q].tokenId);
    assert !Taken(sys.rows, drawn) && !HasReturned(sys, d);
    DisagreeWith(sys, r, c, d, drawn);
  }

  lemma DisagreeWith(sys: System, r: RegistrationId, c: CallId, d: CallId, drawn: TokenId)
    requires Inv(sys) && r in sys.rows && sys.rows[r].status != Active && !Taken(sys.rows, drawn)
    requires c in sys.calls && sys.calls[c] == Generate(r, FetchingOwn) && d !in sys.calls && !HasReturned(sys, d)
    ensures !AllAgree(sys, r)
  {
    var stale := Returned(c, r, sys.rows[r].tokenId);
    FetchReturnsOwn(sys, c, r);
    var s1 := Run(sys, [Fetch(c)]);
    RefreshReplaces(s1, d, r, drawn);
    var s2 := Run(s1, RefreshSteps(d, r, drawn));
    FetchReturnsOwn(s2, d, r);
    var steps := [Fetch(c)] + (RefreshSteps(d, r, drawn) + [Fetch(d)]);
    RunConcat(sys, [Fetch(c)], RefreshSteps(d, r, drawn) + [Fetch(d)]);
    RunConcat(s1, RefreshSteps(d, r, drawn), [Fetch(d)]);
    assert !Revokes(steps, r);
    assert ReturnsIn(sys, steps, r, stale) && ReturnsIn(sys, steps, r, Returned(d, r, drawn));
  }

  // ----- What an undisturbed call returns ----------------------------------

  lemma RunTwo(sys: System, s: Step, t: Step)
    ensures Run(sys, [s, t]) == Next(Next(sys, s), t)
  {
    assert [s, t][1..] == [t] && [t][1..] == [];
    assert Run(Next(sys, s), [t]) == Run(Next(Next(sys, s), t), []);
  }

  /** A registration with an ACTIVE token gets that one, and nothing is written. */
  lemma ActiveIsReturned(sys: System, c: CallId, r: RegistrationId, t: TokenId)
    requires IsActive(sys, r, t) && c !in sys.calls && !HasReturned(sys, c)
    ensures Run(sys, [Start(c, r), ReadExisting(c)]) == sys.(returned := sys.returned + {Returned(c, r, t)})
  {
    RunTwo(sys, Start(c, r), ReadExisting(c));
    assert Next(Next(sys, Start(c, r)), ReadExisting(c)).calls == sys.calls;
  }

  /** One without any gets the drawn token, stored as its ACTIVE one. */
  lemma FirstTokenIsIssued(sys: System, c: CallId, r: RegistrationId, drawn: TokenId)
    requires r !in sys.rows && !Taken(sys.rows, drawn) && c !in sys.calls && !HasReturned(sys, c)
    ensures Run(sys, RefreshSteps(c, r, drawn)) ==
            System(sys.rows[r := Row(drawn, Active)], sys.calls, sys.returned + {Returned(c, r, drawn)})
  {
    var s1 := System(sys.rows, sys.calls[c := Generate(r, Starting)], sys.returned);
    var s2 := System(sys.rows, sys.calls[c := Generate(r, Drawing(None))], sys.returned);
    var s3 := System(sys.rows, sys.calls[c := Generate(r, Writing(None, drawn))], sys.returned);
    assert s1 == Next(sys, Start(c, r)) && s2 == Next(s1, ReadExisting(c)) && s3 == Next(s2, Draw(c, drawn));
    assert Next(s3, Write(c)).calls == sys.calls;
    RunFour(sys, RefreshSteps(c, r, drawn));
  }

  /** One whose token is not ACTIVE any more gets the drawn one in its place. */
  lemma InactiveTokenIsReplaced(sys: System, c: CallId, r: RegistrationId, drawn: TokenId)
    requires r in sys.rows && sys.rows[r].status != Active && !Taken(sys.rows, drawn)
    requires c !in sys.calls && !HasReturned(sys, c)
    ensures Run(sys, RefreshSteps(c, r, drawn) + [Fetch(c)]) ==
            System(sys.rows[r := Row(drawn, Active)], sys.calls, sys.returned + {Returned(c, r, drawn)})
  {
    RefreshReplaces(sys, c, r, drawn);
    RunConcat(sys, RefreshSteps(c, r, drawn), [Fetch(c)]);
    var written := Run(sys, RefreshSteps(c, r, drawn));
    assert [Fetch(c)][1..] == [];
    assert Run(written, [Fetch(c)]) == Run(Next(written, Fetch(c)), []);
    assert Next(written, Fetch(c)).calls == sys.calls;
  }

  /**
   * A call that was overtaken, whether it meant to replace or to create: it
   * returns the token that won while that is ACTIVE, and otherwise fails.
   */
  lemma OvertakenGetsWinner(sys: System, c: CallId, r: RegistrationId, seen: Option<Row>, drawn: TokenId)
    requires c in sys.calls && sys.calls[c] == Generate(r, Writing(seen, drawn)) && r in sys.rows
    requires seen != Some(sys.rows[r])
    ensures var t := Run(sys, [Write(c), Fetch(c)]);
            && t.rows == sys.rows && t.calls == sys.calls - {c}
            && t.returned == if sys.rows[r].status == Active then sys.returned + {Returned(c, r, sys.rows[r].tokenId)}
                             else sys.returned
  {
    RunTwo(sys, Write(c), Fetch(c));
    assert Next(sys, Write(c)) == sys.(calls := sys.calls[c := Generate(r, FetchingWinner)]);
  }

  /** Linearizable: what a step returns is the row's token at that very step. */
  lemma ReturnsCurrentToken(sys: System, step: Step, x: Returned)
    requires x in Next(sys, step).returned - sys.returned
    ensures x.registration in Next(sys, step).rows && Next(sys, step).rows[x.registration].tokenId == x.tokenId
  {
  }

  const EMPTY := System(map[], map[], {})

  const ISSUE: seq<Step> := [Start(0, 0), ReadExisting(0), Draw(0, 6), Write(0)]

  lemma FirstIssue()
    ensures Run(EMPTY, ISSUE) == System(map[0 := Row(6, Active)], map[], {Returned(0, 0, 6)})
  {
    var s1 := System(map[], map[0 := Generate(0, Starting)], {});
    var s2 := System(map[], map[0 := Generate(0, Drawing(None))], {});
    var s3 := System(map[], map[0 := Generate(0, Writing(None, 6))], {});
    assert s1 == Next(EMPTY, Start(0, 0)) && s2 == Next(s1, ReadExisting(0)) && s3 == Next(s2, Draw(0, 6));
    assert Next(s3, Write(0)) == System(map[0 := Row(6, Active)], map[], {Returned(0, 0, 6)});
    RunFour(EMPTY, ISSUE);
  }

  lemma RevokeMarks(sys: System, r: RegistrationId)
    requires r in sys.rows
    ensures Run(sys, [Revoke(r)]) == sys.(rows := sys.rows[r := sys.rows[r].(status := Revoked)])
  {
    assert [Revoke(r)][1..] == [];
    assert Run(sys, [Revoke(r)]) == Run(Next(sys, Revoke(r)), []);
  }

  /**
   * The exception is real: from the empty table a token is issued and revoked,
   * a second call replaces it and is revoked before it re-reads its update.
   */
  lemma OutdatedIsReachable()
    ensures var steps := ISSUE + ([Revoke(0)] + (RefreshSteps(1, 0, 7) + [Revoke(0)]));
            Inv(Run(EMPTY, steps)) && Outdated(Run(EMPTY, steps), 0) && !AllAgree(Run(EMPTY, steps), 0)
  {
    FirstIssue();
    var s1 := Run(EMPTY, ISSUE);
    RevokeMarks(s1, 0);
    var s2 := Run(s1, [Revoke(0)]);
    RefreshReplaces(s2, 1, 0, 7);
    var s3 := Run(s2, RefreshSteps(1, 0, 7));
    RevokeMarks(s3, 0);
    RunConcat(s2, RefreshSteps(1, 0, 7), [Revoke(0)]);
    RunConcat(s1, [Revoke(0)], RefreshSteps(1, 0, 7) + [Revoke(0)]);
    RunConcat(EMPTY, ISSUE, [Revoke(0)] + (RefreshSteps(1, 0, 7) + [Revoke(0)]));
    var end := Run(s3, [Revoke(0)]);
    assert end == System(map[0 := Row(7, Revoked)], map[1 := Generate(0, FetchingOwn)], {Returned(0, 0, 6)});
    assert 1 in end.calls;
    AllAgreeUnlessOutdated(end, 0);
  }

  lemma RunFour(sys: System, steps: seq<Step>)
    requires |steps| == 4
    ensures Run(sys, steps) == Next(Next(Next(Next(sys, steps[0]), steps[1]), steps[2]), steps[3])
  {
    RunLast(sys, steps);
    RunLast(sys, steps[..3]);
    RunLast(sys, steps[..3][..2]);
    RunLast(sys, steps[..3][..2][..1]);
  }

  lemma {:induction false} RunConcat(sys: System, a: seq<Step>, b: seq<Step>)
    ensures Run(sys, a + b) == Run(Run(sys, a), b)
    decreases |a|
  {
    if a == [] { assert a + b == b; }
    else {
      assert (a + b)[1..] == a[1..] + b;
      RunConcat(Next(sys, a[0]), a[1..], b);
    }
  }

  lemma {:induction false} RunLast(sys: System, steps: seq<Step>)
    requires steps != []
    ensures Run(sys, steps) == Next(Run(sys, steps[..|steps| - 1]), steps[|steps| - 1])
    decreases |steps|
  {
    if |steps| > 1 {
      RunLast(Next(sys, steps[0]), steps[1..]);
      assert steps[..|steps| - 1][1..] == steps[1..][..|steps| - 2];
    }
  }

  // ----- The table and the requests ------------------------------------

  const MAX_DRAWS := 5

  class QrTokens {
    var rows: map<RegistrationId, Row>
    var calls: map<CallId, Generate>
    ghost var returned: set<Returned>

    ghost function State(): System reads this { System(rows, calls, returned) }

    constructor ()
      ensures Inv(State())
    {
      rows, calls, returned := map[], map[], {};
    }

    /** generate up to its first read of the token row. */
    method FindExisting(call: CallId) returns (answer: Option<TokenId>)
      requires call in calls && calls[call].stage.Starting?
      modifies this
      ensures State() == Next(old(State()), ReadExisting(call))
      ensures answer.Some? ==> IsActive(State(), old(calls)[call].registration, answer.value)
    {
      var seen := Lookup(rows, calls[call].registration);
      if seen.Some? && seen.value.status == Active {
        Finish(call, seen.value.tokenId);
        return Some(seen.value.tokenId);
      } else {
        calls := calls[call := calls[call].(stage := Drawing(seen))];
        return None;
      }
    }

    /** generateTokenId: at most five draws, the first one no row carries. */
    method GenerateTokenId(draws: seq<TokenId>) returns (tokenId: Option<TokenId>)
      requires |draws| >= MAX_DRAWS
      ensures tokenId.Some? ==> tokenId.value in draws[..MAX_DRAWS] && !Taken(rows, tokenId.value)
      ensures tokenId.None? <==> forall k :: 0 <= k < MAX_DRAWS ==> Taken(rows, draws[k])
    {
      for attempt := 0 to MAX_DRAWS
        invariant forall k :: 0 <= k < attempt ==> Taken(rows, draws[k])
      {
        if !Taken(rows, draws[attempt]) {
          return Some(draws[attempt]);
        }
      }
      return None;
    }

    /** The compare-and-set, or the insert, of createOrRefreshQrToken. */
    method WriteToken(call: CallId)
      requires call in calls && calls[call].stage.Writing?
      modifies this
      ensures State() == Next(old(State()), Write(call))
    {
      var r, seen, drawn := calls[call].registration, calls[call].stage.seen, calls[call].stage.drawn;
      if seen.Some? {
        if r !in rows || rows[r] != seen.value {
          calls := calls[call := Generate(r, FetchingWinner)];
        } else if Taken(rows, drawn) {
          calls := calls - {call};
        } else {
          rows := rows[r := Row(drawn, Active)];
          calls := calls[call := Generate(r, FetchingOwn)];
        }
      } else if r in rows || Taken(rows, drawn) {
        calls := calls[call := Generate(r, FetchingWinner)];
      } else {
        rows := rows[r := Row(drawn, Active)];
        Finish(call, drawn);
      }
    }

    /** The read that follows a lost race. */
    method FetchActive(call: CallId) returns (answer: Option<TokenId>)
      requires call in calls && calls[call].stage.FetchingWinner?
      modifies this
      ensures State() == Next(old(State()), Fetch(call))
      ensures answer.Some? ==> IsActive(State(), old(calls)[call].registration, answer.value)
    {
      var r := calls[call].registration;
      if r in rows && rows[r].status == Active {
        Finish(call, rows[r].tokenId);
        answer := Some(rows[r].tokenId);
      } else {
        calls := calls - {call};
        answer := None;
      }
    }

    method RevokeToken(r: RegistrationId) returns (found: bool)
      modifies this`rows
      ensures found == (r in old(rows))
      ensures State() == Next(old(State()), Revoke(r))
    {
      found := r in rows;
      if found {
        rows := rows[r := rows[r].(status := Revoked)];
      }
    }

    method Finish(call: CallId, tokenId: TokenId)
      requires call in calls
      modifies this`calls, this`returned
      ensures State() == Return(old(State()), call, tokenId)
    {
      returned := returned + {Returned(call, calls[call].registration, tokenId)};
      calls := calls - {call};
    }
  }
}
