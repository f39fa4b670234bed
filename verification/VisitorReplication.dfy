/**
 * A staff device that downloads the snapshot page by page and then follows the
 * change journal, while other requests keep writing. Every database read of a
 * request is a step of its own, so writes may fall between any two of them,
 * and a reply may be lost.
 */
module VisitorReplication {
  import opened Wrappers
  import opened VisitorStore
  import opened SnapshotPaging
  import opened VisitorChanges

  /** Paging: more pages are to come after `after`. Complete: the device only follows the journal. */
  datatype Progress = Paging(asOf: nat, after: Key, changeCursor: nat) | Complete

  datatype Device = Device(replica: map<RegistrationId, Visitor>, cursor: nat, progress: Progress)

  /**
   * The request in flight, by what it has read so far. `horizon` is the length
   * of the journal when the visitors of the reply were read.
   */
  datatype Call =
    | Idle
    | SnapshotOpened(asOf: nat)
    | SnapshotPositioned(asOf: nat, after: Option<Key>, changeCursor: nat)
    | SnapshotReply(asOf: nat, after: Option<Key>, changeCursor: nat, next: Option<Key>,
                    visitors: map<RegistrationId, Visitor>, horizon: nat)
    | RowsRead(limit: nat, horizon: nat, page: ChangesPage)
    | VisitorsRead(limit: nat, horizon: nat, page: ChangesPage, visitors: map<RegistrationId, Visitor>)
    | ChangesReply(limit: nat, horizon: nat, page: ChangesPage, visitors: map<RegistrationId, Visitor>, latest: nat)

  datatype System = System(server: Server, device: Device, call: Call)

  datatype Step =
    | ServerWrites(write: Write)
    | OpenSnapshot
    | ReadChangeCursor
    | ContinueSnapshot
    | ReadSnapshotPage(limit: Option<int>)
    | ApplySnapshotPage
    | AskChanges(limit: Option<int>)
    | ReadVisitors
    | ReadLatest
    | ApplyChanges
    | LoseReply

  /** The newest journal id of the event dated no later than `asOf`. */
  function CursorAt(journal: seq<Change>, e: EventId, asOf: nat): (cursor: nat)
    ensures cursor <= |journal|
  {
    if journal == [] then 0
    else if journal[|journal| - 1].eventId == e && journal[|journal| - 1].changedAt <= asOf then |journal|
    else CursorAt(journal[..|journal| - 1], e, asOf)
  }

  /** The newest journal id of the event. */
  function LatestCursor(journal: seq<Change>, e: EventId): (cursor: nat)
    ensures cursor <= |journal|
  {
    if journal == [] then 0
    else if journal[|journal| - 1].eventId == e then |journal|
    else LatestCursor(journal[..|journal| - 1], e)
  }

  ghost function PageVisitors(s: Server, items: seq<Key>): map<RegistrationId, Visitor> {
    map k | k in items && k.id in s.registrations :: k.id := s.registrations[k.id].visitor
  }

  /** The registrations that the page still needs: those whose compacted row is an UPSERT. */
  function UpsertIds(rows: seq<Row>): set<RegistrationId> {
    set row | row in Effective(rows) && row.change.operation == Upsert :: row.change.registrationId
  }

  function UpsertVisitors(s: Server, e: EventId, rows: seq<Row>): map<RegistrationId, Visitor> {
    map r | r in UpsertIds(rows) && Shown(s, e, r).Some? :: Shown(s, e, r).value
  }

  lemma UpsertIdsAreNewest(rows: seq<Row>, r: RegistrationId)
    requires Ascending(rows)
    ensures r in UpsertIds(rows) <==> Newest(rows, r).Some? && Newest(rows, r).value.change.operation == Upsert
  {
    EffectiveIsCompaction(rows);
    if Newest(rows, r).Some? && Newest(rows, r).value.change.operation == Upsert {
      assert Newest(rows, r).value in Effective(rows);
    }
  }

  /** hasMore as the reply reports it. */
  predicate MoreAvailable(call: Call)
    requires call.ChangesReply?
  {
    call.page.hasMore || call.page.next < call.latest
  }

  ghost function Next(e: EventId, sys: System, step: Step): System {
    var s, d, call := sys.server, sys.device, sys.call;
    match step
    case ServerWrites(write) => sys.(server := Apply(s, write))
    case OpenSnapshot =>
      if call.Idle? then sys.(call := SnapshotOpened(s.clock)) else sys
    case ReadChangeCursor =>
      if call.SnapshotOpened? then sys.(call := SnapshotPositioned(call.asOf, None, CursorAt(s.journal, e, call.asOf)))
      else sys
    case ContinueSnapshot =>
      if call.Idle? && d.progress.Paging?
      then sys.(call := SnapshotPositioned(d.progress.asOf, Some(d.progress.after), d.progress.changeCursor))
      else sys
    case ReadSnapshotPage(limit) =>
      if call.SnapshotPositioned? then
        var page := ReadPage(s, e, call.asOf, call.after, ClampSnapshotLimit(limit));
        sys.(call := SnapshotReply(call.asOf, call.after, call.changeCursor, page.next, PageVisitors(s, page.items),
                                   |s.journal|))
      else sys
    case ApplySnapshotPage =>
      if call.SnapshotReply? then
        var progress := if call.next.Some? then Paging(call.asOf, call.next.value, call.changeCursor) else Complete;
        var device := if call.after.None? then Device(call.visitors, call.changeCursor, progress)
                      else Device(d.replica + call.visitors, d.cursor, progress);
        System(s, device, Idle)
      else sys
    case AskChanges(limit) =>
      if call.Idle? then
        var n := ClampChangesLimit(limit);
        sys.(call := RowsRead(n, |s.journal|, ReadChanges(s.journal, e, d.cursor, n)))
      else sys
    case ReadVisitors =>
      if call.RowsRead? then
        sys.(call := VisitorsRead(call.limit, call.horizon, call.page, UpsertVisitors(s, e, call.page.rows)))
      else sys
    case ReadLatest =>
      if call.VisitorsRead? then
        sys.(call := ChangesReply(call.limit, call.horizon, call.page, call.visitors, LatestCursor(s.journal, e)))
      else sys
    case ApplyChanges =>
      if call.ChangesReply? then
        var changes := Deliver(Effective(call.page.rows), call.visitors);
        System(s, d.(replica := StoreAll(d.replica, changes), cursor := call.page.next), Idle)
      else sys
    case LoseReply => sys.(call := Idle)
  }

  ghost function Run(e: EventId, sys: System, steps: seq<Step>): System
    decreases |steps|
  {
    if steps == [] then sys else Run(e, Next(e, sys, steps[0]), steps[1..])
  }

  // ----- The invariant -------------------------------------------------

  /** The paging cursor has still to pass the registration. */
  ghost predicate Ahead(s: Server, e: EventId, asOf: nat, after: Option<Key>, r: RegistrationId) {
    && r in s.registrations && s.registrations[r].eventId == e
    && s.registrations[r].createdAt <= asOf
    && Beyond(after, Key(s.registrations[r].createdAt, r))
  }

  /** The copy of `r` is right, or a journal row beyond the cursor will repair it, or a later page will bring it. */
  ghost predicate Covered(e: EventId, s: Server, d: Device, r: RegistrationId) {
    || Settled(s, e, r, Lookup(d.replica, r), d.cursor)
    || (d.progress.Paging? && Ahead(s, e, d.progress.asOf, Some(d.progress.after), r))
  }

  ghost predicate DeviceInv(e: EventId, s: Server, d: Device) {
    && d.cursor <= |s.journal|
    && (d.progress.Paging? ==> CursorInv(s, d.progress.asOf, d.progress.changeCursor))
    && forall r :: Covered(e, s, d, r)
  }

  /** The journal cursor of a snapshot never passes a row dated after the snapshot instant. */
  ghost predicate CursorInv(s: Server, asOf: nat, changeCursor: nat) {
    && changeCursor <= |s.journal|
    && forall i :: 0 <= i < changeCursor ==> s.journal[i].changedAt <= asOf
  }

  ghost predicate SnapshotCovers(e: EventId, s: Server, call: Call, r: RegistrationId)
    requires call.SnapshotReply?
  {
    if r in call.visitors then Settled(s, e, r, Some(call.visitors[r]), call.horizon)
    else Ahead(s, e, call.asOf, call.after, r) ==>
         (call.next.Some? && Ahead(s, e, call.asOf, call.next, r)) || LastRow(s.journal, e, r) >= call.horizon
  }

  /** What the visitors read for the page still say about the newest row of `r`. */
  ghost predicate ChangeCovers(e: EventId, s: Server, page: ChangesPage, visitors: map<RegistrationId, Visitor>,
                               r: RegistrationId)
  {
    var newest := Newest(page.rows, r);
    newest.Some? && newest.value.change.operation == Upsert ==>
      if r in visitors then Settled(s, e, r, Some(visitors[r]), page.next)
      else LastRow(s.journal, e, r) >= page.next
  }

  ghost predicate PageInv(e: EventId, s: Server, d: Device, limit: nat, horizon: nat, page: ChangesPage) {
    && limit > 0 && d.cursor <= horizon <= |s.journal|
    && page == ReadChanges(s.journal[..horizon], e, d.cursor, limit)
  }

  ghost predicate CallInv(e: EventId, s: Server, d: Device, call: Call) {
    match call
    case Idle => true
    case SnapshotOpened(asOf) => asOf <= s.clock
    case SnapshotPositioned(asOf, after, changeCursor) =>
      && CursorInv(s, asOf, changeCursor)
      && (after.Some? ==> d.progress == Paging(asOf, after.value, changeCursor))
    case SnapshotReply(asOf, after, changeCursor, next, visitors, horizon) =>
      && CursorInv(s, asOf, changeCursor)
      && (after.Some? ==> d.progress == Paging(asOf, after.value, changeCursor))
      && changeCursor <= horizon <= |s.journal| && d.cursor <= horizon
      && forall r :: SnapshotCovers(e, s, call, r)
    case RowsRead(limit, horizon, page) => PageInv(e, s, d, limit, horizon, page)
    case VisitorsRead(limit, horizon, page, visitors) =>
      PageInv(e, s, d, limit, horizon, page) && forall r :: ChangeCovers(e, s, page, visitors, r)
    case ChangesReply(limit, horizon, page, visitors, latest) =>
      PageInv(e, s, d, limit, horizon, page) && forall r :: ChangeCovers(e, s, page, visitors, r)
  }

  ghost predicate Inv(e: EventId, sys: System) {
    && Valid(sys.server)
    && DeviceInv(e, sys.server, sys.device)
    && CallInv(e, sys.server, sys.device, sys.call)
  }

  // ----- Writes --------------------------------------------------------

  lemma AheadAfterWrite(s: Server, w: Write, e: EventId, asOf: nat, after: Option<Key>, r: RegistrationId)
    requires Ahead(s, e, asOf, after, r)
    ensures Ahead(Apply(s, w), e, asOf, after, r) || LastRow(Apply(s, w).journal, e, r) >= |s.journal|
  {
    var t := Apply(s, w);
    if |t.journal| > |s.journal| {
      LastRowAppend(s.journal, t.journal[|s.journal|], e, r);
    }
  }

  lemma AheadBeforeWrite(s: Server, w: Write, e: EventId, asOf: nat, after: Option<Key>, r: RegistrationId)
    requires Ahead(Apply(s, w), e, asOf, after, r)
    ensures Ahead(s, e, asOf, after, r) || LastRow(Apply(s, w).journal, e, r) >= |s.journal|
  {
    var t := Apply(s, w);
    if |t.journal| > |s.journal| {
      LastRowAppend(s.journal, t.journal[|s.journal|], e, r);
    }
  }

  lemma CoveredAfterWrite(e: EventId, s: Server, w: Write, d: Device, r: RegistrationId)
    requires d.cursor <= |s.journal| && Covered(e, s, d, r)
    ensures Covered(e, Apply(s, w), d, r)
  {
    if Settled(s, e, r, Lookup(d.replica, r), d.cursor) {
      SettledIsStable(s, w, e, r, Lookup(d.replica, r), d.cursor);
    } else {
      AheadAfterWrite(s, w, e, d.progress.asOf, Some(d.progress.after), r);
    }
  }

  lemma RowsOnlyGrow(s: Server, w: Write, e: EventId, r: RegistrationId)
    ensures LastRow(s.journal, e, r) <= LastRow(Apply(s, w).journal, e, r)
  {
    var t := Apply(s, w);
    if |t.journal| > |s.journal| {
      LastRowAppend(s.journal, t.journal[|s.journal|], e, r);
    }
  }

  lemma SnapshotCoversAfterWrite(e: EventId, s: Server, w: Write, call: Call, r: RegistrationId)
    requires call.SnapshotReply? && call.horizon <= |s.journal| && SnapshotCovers(e, s, call, r)
    ensures SnapshotCovers(e, Apply(s, w), call, r)
  {
    RowsOnlyGrow(s, w, e, r);
    if r in call.visitors {
      SettledIsStable(s, w, e, r, Some(call.visitors[r]), call.horizon);
    } else if Ahead(Apply(s, w), e, call.asOf, call.after, r) {
      AheadBeforeWrite(s, w, e, call.asOf, call.after, r);
      if call.next.Some? && Ahead(s, e, call.asOf, call.next, r) {
        AheadAfterWrite(s, w, e, call.asOf, call.next, r);
      }
    }
  }

  lemma ChangeCoversAfterWrite(e: EventId, s: Server, w: Write, page: ChangesPage,
                               visitors: map<RegistrationId, Visitor>, r: RegistrationId)
    requires page.next <= |s.journal| && ChangeCovers(e, s, page, visitors, r)
    ensures ChangeCovers(e, Apply(s, w), page, visitors, r)
  {
    RowsOnlyGrow(s, w, e, r);
    if r in visitors && Settled(s, e, r, Some(visitors[r]), page.next) {
      SettledIsStable(s, w, e, r, Some(visitors[r]), page.next);
    }
  }

  lemma PageInvAfterWrite(e: EventId, s: Server, w: Write, d: Device, limit: nat, horizon: nat, page: ChangesPage)
    requires PageInv(e, s, d, limit, horizon, page) && s.journal <= Apply(s, w).journal
    ensures PageInv(e, Apply(s, w), d, limit, horizon, page)
    ensures page.next <= |s.journal|
  {
    assert Apply(s, w).journal[..horizon] == s.journal[..horizon];
    PageCursorAdvances(s.journal[..horizon], e, d.cursor, limit);
  }

  lemma WriteKeepsInv(e: EventId, sys: System, w: Write)
    requires Inv(e, sys)
    ensures Inv(e, Next(e, sys, ServerWrites(w)))
  {
    var s, d, call := sys.server, sys.device, sys.call;
    ApplyKeepsValid(s, w);
    forall r ensures Covered(e, Apply(s, w), d, r) { CoveredAfterWrite(e, s, w, d, r); }
    WriteKeepsCallInv(e, s, w, d, call);
  }

  lemma WriteKeepsCallInv(e: EventId, s: Server, w: Write, d: Device, call: Call)
    requires CallInv(e, s, d, call) && s.journal <= Apply(s, w).journal && s.clock <= Apply(s, w).clock
    ensures CallInv(e, Apply(s, w), d, call)
  {
    match call
    case Idle =>
    case SnapshotOpened(_) =>
    case SnapshotPositioned(_, _, _) =>
    case SnapshotReply(_, _, _, _, _, _) =>
      forall r ensures SnapshotCovers(e, Apply(s, w), call, r) { SnapshotCoversAfterWrite(e, s, w, call, r); }
    case RowsRead(limit, horizon, page) => PageInvAfterWrite(e, s, w, d, limit, horizon, page);
    case VisitorsRead(limit, horizon, page, visitors) =>
      PageInvAfterWrite(e, s, w, d, limit, horizon, page);
      forall r
        ensures ChangeCovers(e, Apply(s, w), page, visitors, r)
      {
        ChangeCoversAfterWrite(e, s, w, page, visitors, r);
      }
    case ChangesReply(limit, horizon, page, visitors, _) =>
      PageInvAfterWrite(e, s, w, d, limit, horizon, page);
      forall r
        ensures ChangeCovers(e, Apply(s, w), page, visitors, r)
      {
        ChangeCoversAfterWrite(e, s, w, page, visitors, r);
      }
  }

  // ----- Snapshot steps ------------------------------------------------

  lemma {:induction false} CursorAtIsEarly(journal: seq<Change>, e: EventId, asOf: nat)
    requires forall i, k :: 0 <= i <= k < |journal| ==> journal[i].changedAt <= journal[k].changedAt
    ensures forall i :: 0 <= i < CursorAt(journal, e, asOf) ==> journal[i].changedAt <= asOf
  {
    if journal != [] && !(journal[|journal| - 1].eventId == e && journal[|journal| - 1].changedAt <= asOf) {
      CursorAtIsEarly(journal[..|journal| - 1], e, asOf);
    }
  }

  predicate DatedBy(c: Change, e: EventId, asOf: nat) { c.eventId == e && c.changedAt <= asOf }

  /** The newest row of the event dated no later than the instant, and 0 only without one. */
  lemma {:induction false} CursorAtIsNewest(journal: seq<Change>, e: EventId, asOf: nat)
    ensures CursorAt(journal, e, asOf) > 0 ==> DatedBy(journal[CursorAt(journal, e, asOf) - 1], e, asOf)
    ensures forall i :: CursorAt(journal, e, asOf) <= i < |journal| ==> !DatedBy(journal[i], e, asOf)
    ensures CursorAt(journal, e, asOf) == 0 <==> forall i :: 0 <= i < |journal| ==> !DatedBy(journal[i], e, asOf)
  {
    if journal != [] && !DatedBy(journal[|journal| - 1], e, asOf) {
      CursorAtIsNewest(journal[..|journal| - 1], e, asOf);
    }
  }

  /** With every row dated by now, that is the newest row of the event. */
  lemma CursorNowIsLatest(s: Server, e: EventId)
    requires Valid(s)
    ensures CursorAt(s.journal, e, s.clock) == LatestCursor(s.journal, e)
  {
    CursorAtIsNewest(s.journal, e, s.clock);
    LatestCursorIsLast(s.journal, e);
    var c, latest := CursorAt(s.journal, e, s.clock), LatestCursor(s.journal, e);
    assert latest > 0 ==> DatedBy(s.journal[latest - 1], e, s.clock);
    assert c > 0 ==> s.journal[c - 1].eventId == e;
  }

  lemma ReadPageCovers(e: EventId, s: Server, call: Call, limit: nat, r: RegistrationId)
    requires limit > 0 && call.SnapshotPositioned?
    ensures var page := ReadPage(s, e, call.asOf, call.after, limit);
            SnapshotCovers(e, s, SnapshotReply(call.asOf, call.after, call.changeCursor, page.next,
                                               PageVisitors(s, page.items), |s.journal|), r)
  {
    PageIsPrefix(s, e, call.asOf, call.after, limit);
    var page := ReadPage(s, e, call.asOf, call.after, limit);
    if r in PageVisitors(s, page.items) {
      var k :| k in page.items && k.id == r;
      assert k in Eligible(s, e, call.asOf, call.after);
    } else if Ahead(s, e, call.asOf, call.after, r) {
      assert Key(s.registrations[r].createdAt, r) in Eligible(s, e, call.asOf, call.after);
    }
  }

  /** A registration created after the snapshot instant still has its journal row ahead of the snapshot's cursor. */
  lemma LateRegistrationIsJournaled(e: EventId, s: Server, asOf: nat, changeCursor: nat, r: RegistrationId)
    requires Valid(s) && CursorInv(s, asOf, changeCursor)
    requires r in s.registrations && s.registrations[r].eventId == e && s.registrations[r].createdAt > asOf
    ensures LastRow(s.journal, e, r) >= changeCursor
  {
    assert Journaled(s, r);
  }

  lemma SnapshotPageApplied(e: EventId, sys: System, r: RegistrationId)
    requires Inv(e, sys) && sys.call.SnapshotReply?
    ensures Covered(e, sys.server, Next(e, sys, ApplySnapshotPage).device, r)
  {
    var s, call := sys.server, sys.call;
    assert SnapshotCovers(e, s, call, r) && Covered(e, s, sys.device, r);
    if call.after.None? && r !in call.visitors && Shown(s, e, r).Some? && s.registrations[r].createdAt > call.asOf {
      LateRegistrationIsJournaled(e, s, call.asOf, call.changeCursor, r);
    }
  }

  // ----- Delta steps ---------------------------------------------------

  /** Where the newest page row about `r` stands against the newest journal row about it. */
  lemma NewestAgainstJournal(e: EventId, s: Server, d: Device, limit: nat, horizon: nat, page: ChangesPage,
                             r: RegistrationId)
    requires PageInv(e, s, d, limit, horizon, page)
    ensures Newest(page.rows, r).None? ==> LastRow(s.journal, e, r) < d.cursor || LastRow(s.journal, e, r) >= page.next
    ensures Newest(page.rows, r).Some? ==>
              var row := Newest(page.rows, r).value;
              && 0 < row.id <= |s.journal| && s.journal[row.id - 1] == row.change
              && (LastRow(s.journal, e, r) == row.id - 1 || LastRow(s.journal, e, r) >= page.next)
  {
    var prefix := s.journal[..horizon];
    var last := LastRow(s.journal, e, r);
    PageCursorAdvances(prefix, e, d.cursor, limit);
    if d.cursor <= last < page.next {
      PageSkipsNothing(prefix, e, d.cursor, limit, last);
      NewestHasLargestId(page.rows, Row(last + 1, s.journal[last]));
    }
    if Newest(page.rows, r).Some? {
      var row := Newest(page.rows, r).value;
      PageRowsAreJournalRows(prefix, e, d.cursor, limit, row);
      assert Concerns(s.journal[row.id - 1], e, r);
    }
  }

  lemma ReadVisitorsCovers(e: EventId, s: Server, d: Device, limit: nat, horizon: nat, page: ChangesPage,
                           r: RegistrationId)
    requires Valid(s) && PageInv(e, s, d, limit, horizon, page)
    ensures ChangeCovers(e, s, page, UpsertVisitors(s, e, page.rows), r)
  {
    var newest := Newest(page.rows, r);
    if newest.Some? && newest.value.change.operation == Upsert {
      PageCursorAdvances(s.journal[..horizon], e, d.cursor, limit);
      UpsertIdsAreNewest(page.rows, r);
      NewestAgainstJournal(e, s, d, limit, horizon, page, r);
      if Shown(s, e, r).None? {
        assert !UpsertedLast(s.journal, e, r);
      }
    }
  }

  /** The copy of `r` after the page is stored. */
  lemma StoredCopy(replica: map<RegistrationId, Visitor>, rows: seq<Row>, visitors: map<RegistrationId, Visitor>,
                   r: RegistrationId)
    requires Ascending(rows)
    ensures Lookup(StoreAll(replica, Deliver(Effective(rows), visitors)), r) ==
            match Newest(rows, r)
            case None => Lookup(replica, r)
            case Some(row) =>
              if row.change.operation == Delete then None
              else if r in visitors then Some(visitors[r])
              else Lookup(replica, r)
  {
    EffectiveIsCompaction(rows);
    CompactionKeepsNewest(rows, Effective(rows), r);
    StoreAllByRegistration(replica, Effective(rows), visitors, r);
    if Newest(rows, r).Some? {
      StoreIsLocal(replica, DeliverRow(Newest(rows, r).value, visitors), r);
    }
  }

  lemma ChangesApplied(e: EventId, s: Server, d: Device, call: Call, r: RegistrationId)
    requires Valid(s) && DeviceInv(e, s, d) && call.ChangesReply? && CallInv(e, s, d, call)
    ensures Covered(e, s, d.(replica := StoreAll(d.replica, Deliver(Effective(call.page.rows), call.visitors)),
                             cursor := call.page.next), r)
  {
    var rows := call.page.rows;
    PageCursorAdvances(s.journal[..call.horizon], e, d.cursor, call.limit);
    StoredCopy(d.replica, rows, call.visitors, r);
    NewestAgainstJournal(e, s, d, call.limit, call.horizon, call.page, r);
    assert Covered(e, s, d, r) && ChangeCovers(e, s, call.page, call.visitors, r);
    if Newest(rows, r).Some? && Shown(s, e, r).Some? {
      assert Journaled(s, r);
    }
  }

  // ----- Every step, every run -----------------------------------------

  lemma StepKeepsInv(e: EventId, sys: System, step: Step)
    requires Inv(e, sys)
    ensures Inv(e, Next(e, sys, step))
  {
    var s, d, call := sys.server, sys.device, sys.call;
    var after := Next(e, sys, step);
    match step
    case ServerWrites(w) => WriteKeepsInv(e, sys, w);
    case OpenSnapshot =>
    case ReadChangeCursor =>
      if call.SnapshotOpened? { CursorAtIsEarly(s.journal, e, call.asOf); }
    case ContinueSnapshot =>
    case ReadSnapshotPage(limit) =>
      if call.SnapshotPositioned? {
        forall r
          ensures SnapshotCovers(e, s, after.call, r)
        {
          ReadPageCovers(e, s, call, ClampSnapshotLimit(limit), r);
        }
      }
    case ApplySnapshotPage =>
      if call.SnapshotReply? {
        forall r ensures Covered(e, s, after.device, r) { SnapshotPageApplied(e, sys, r); }
      }
    case AskChanges(limit) => assert s.journal[..|s.journal|] == s.journal;
    case ReadVisitors =>
      if call.RowsRead? {
        forall r ensures ChangeCovers(e, s, call.page, after.call.visitors, r) {
          ReadVisitorsCovers(e, s, d, call.limit, call.horizon, call.page, r);
        }
      }
    case ReadLatest =>
    case ApplyChanges =>
      if call.ChangesReply? {
        PageCursorAdvances(s.journal[..call.horizon], e, d.cursor, call.limit);
        forall r ensures Covered(e, s, after.device, r) { ChangesApplied(e, s, d, call, r); }
      }
    case LoseReply =>
  }

  /** Safety over every run: no visitor is ever out of date without something left to repair it. */
  lemma {:induction false} RunKeepsInv(e: EventId, sys: System, steps: seq<Step>)
    requires Inv(e, sys)
    ensures Inv(e, Run(e, sys, steps))
    decreases |steps|
  {
    if steps != [] {
      StepKeepsInv(e, sys, steps[0]);
      RunKeepsInv(e, Next(e, sys, steps[0]), steps[1..]);
    }
  }

  // ----- Convergence ---------------------------------------------------

  lemma EmptyServerIsValid()
    ensures Valid(EMPTY_SERVER)
  {
    forall e, r ensures !UpsertedLast(EMPTY_SERVER.journal, e, r) {}
  }

  /**
   * A device may skip the snapshot and follow the journal from 0 with whatever
   * old copy it holds, exactly when the journal knows every copy that is wrong.
   */
  lemma RepairWithoutSnapshot(e: EventId, s: Server, replica: map<RegistrationId, Visitor>)
    requires Valid(s)
    ensures Inv(e, System(s, Device(replica, 0, Complete), Idle)) <==>
            forall r :: r in replica && Shown(s, e, r) != Some(replica[r]) ==> LastRow(s.journal, e, r) >= 0
  {
    var d := Device(replica, 0, Complete);
    forall r
      ensures Covered(e, s, d, r) <==>
              (r in replica && Shown(s, e, r) != Some(replica[r]) ==> LastRow(s.journal, e, r) >= 0)
    {
      if Shown(s, e, r).Some? { assert Journaled(s, r); }
    }
    if DeviceInv(e, s, d) {
      forall r | r in replica && Shown(s, e, r) != Some(replica[r]) ensures LastRow(s.journal, e, r) >= 0 {
        assert Covered(e, s, d, r);
      }
    }
  }

  lemma {:induction false} LatestCursorBoundsRows(journal: seq<Change>, e: EventId, r: RegistrationId)
    ensures LastRow(journal, e, r) < LatestCursor(journal, e) || LastRow(journal, e, r) == -1
  {
    if journal != [] && journal[|journal| - 1].eventId != e {
      LatestCursorBoundsRows(journal[..|journal| - 1], e, r);
    }
  }

  /** Covered without any row beyond the cursor means equal. */
  lemma NothingLeftMeansEqual(e: EventId, s: Server, d: Device)
    requires DeviceInv(e, s, d) && d.progress.Complete?
    requires forall r :: LastRow(s.journal, e, r) < d.cursor
    ensures d.replica == Stock(s, e)
  {
    forall r ensures Lookup(d.replica, r) == Shown(s, e, r) {
      assert Covered(e, s, d, r);
    }
    forall r ensures r in d.replica <==> r in Stock(s, e) {
      assert Lookup(d.replica, r) == Shown(s, e, r);
    }
    forall r | r in d.replica ensures d.replica[r] == Stock(s, e)[r] {
      assert Lookup(d.replica, r) == Shown(s, e, r);
    }
  }

  /**
   * Convergence: after any run, a delta reply with hasMore = false that finds no
   * later write leaves the replica equal to the server's stock of the event.
   */
  lemma FinalReplyConverges(e: EventId, start: System, steps: seq<Step>)
    requires Inv(e, start)
    requires var sys := Run(e, start, steps);
             && sys.call.ChangesReply? && sys.device.progress.Complete?
             && sys.call.latest == LatestCursor(sys.server.journal, e)
             && !MoreAvailable(sys.call)
    ensures var sys := Run(e, start, steps);
            Next(e, sys, ApplyChanges).device.replica == Stock(sys.server, e)
  {
    RunKeepsInv(e, start, steps);
    var sys := Run(e, start, steps);
    StepKeepsInv(e, sys, ApplyChanges);
    forall r ensures LastRow(sys.server.journal, e, r) < sys.call.page.next {
      LatestCursorBoundsRows(sys.server.journal, e, r);
    }
    NothingLeftMeansEqual(e, sys.server, Next(e, sys, ApplyChanges).device);
  }

  /** A device without any copy, before anybody is registered. */
  const NEW_SYSTEM := System(EMPTY_SERVER, Device(map[], 0, Complete), Idle)

  lemma NewSystemInv(e: EventId)
    ensures Inv(e, NEW_SYSTEM)
  {
    EmptyServerIsValid();
    forall r ensures Covered(e, EMPTY_SERVER, NEW_SYSTEM.device, r) {}
  }

  /** In particular after any run from the empty server. */
  lemma NewDeviceConverges(e: EventId, steps: seq<Step>)
    requires var sys := Run(e, NEW_SYSTEM, steps);
             && sys.call.ChangesReply? && sys.device.progress.Complete?
             && sys.call.latest == LatestCursor(sys.server.journal, e)
             && !MoreAvailable(sys.call)
    ensures var sys := Run(e, NEW_SYSTEM, steps);
            Next(e, sys, ApplyChanges).device.replica == Stock(sys.server, e)
  {
    NewSystemInv(e);
    FinalReplyConverges(e, NEW_SYSTEM, steps);
  }

  /** One undisturbed delta call. */
  ghost function Round(e: EventId, sys: System, limit: Option<int>): System {
    Next(e, Next(e, Next(e, Next(e, sys, AskChanges(limit)), ReadVisitors), ReadLatest), ApplyChanges)
  }

  ghost function Rounds(e: EventId, sys: System, limits: seq<Option<int>>): System
    decreases |limits|
  {
    if limits == [] then sys else Rounds(e, Round(e, sys, limits[0]), limits[1..])
  }

  function TotalLimit(limits: seq<Option<int>>): nat {
    if limits == [] then 0 else ClampChangesLimit(limits[0]) + TotalLimit(limits[1..])
  }

  function Pending(e: EventId, sys: System): nat {
    |RowsAfter(sys.server.journal, e, sys.device.cursor)|
  }

  lemma RoundMakesProgress(e: EventId, sys: System, limit: Option<int>)
    requires Inv(e, sys) && sys.call.Idle?
    ensures var after := Round(e, sys, limit);
            var n := ClampChangesLimit(limit);
            && Inv(e, after) && after.call.Idle? && after.server == sys.server
            && after.device.progress == sys.device.progress
            && Pending(e, after) == if Pending(e, sys) > n then Pending(e, sys) - n else 0
  {
    PageLeavesRest(sys.server.journal, e, sys.device.cursor, ClampChangesLimit(limit));
    var s1 := Next(e, sys, AskChanges(limit));
    StepKeepsInv(e, sys, AskChanges(limit));
    var s2 := Next(e, s1, ReadVisitors);
    StepKeepsInv(e, s1, ReadVisitors);
    var s3 := Next(e, s2, ReadLatest);
    StepKeepsInv(e, s2, ReadLatest);
    StepKeepsInv(e, s3, ApplyChanges);
  }

  /** Progress: once writing stops, enough delta calls of any page sizes make the replica equal to the stock. */
  lemma {:induction false} CatchUp(e: EventId, sys: System, limits: seq<Option<int>>)
    requires Inv(e, sys) && sys.call.Idle? && sys.device.progress.Complete?
    requires TotalLimit(limits) >= Pending(e, sys)
    ensures Rounds(e, sys, limits).device.replica == Stock(sys.server, e)
    decreases |limits|
  {
    if limits == [] {
      var s, d := sys.server, sys.device;
      forall r ensures LastRow(s.journal, e, r) < d.cursor {
        if LastRow(s.journal, e, r) >= d.cursor {
          RowsAfterHasRow(s.journal, e, d.cursor, LastRow(s.journal, e, r));
        }
      }
      NothingLeftMeansEqual(e, s, d);
    } else {
      RoundMakesProgress(e, sys, limits[0]);
      CatchUp(e, Round(e, sys, limits[0]), limits[1..]);
    }
  }

  // ----- An undisturbed snapshot -----------------------------------------

  ghost function FirstPage(e: EventId, sys: System, limit: Option<int>): System {
    Next(e, Next(e, Next(e, Next(e, sys, OpenSnapshot), ReadChangeCursor), ReadSnapshotPage(limit)), ApplySnapshotPage)
  }

  ghost function LaterPage(e: EventId, sys: System, limit: Option<int>): System {
    Next(e, Next(e, Next(e, sys, ContinueSnapshot), ReadSnapshotPage(limit)), ApplySnapshotPage)
  }

  ghost function LaterPages(e: EventId, sys: System, limits: seq<Option<int>>): System
    decreases |limits|
  {
    if limits == [] then sys else LaterPages(e, LaterPage(e, sys, limits[0]), limits[1..])
  }

  /** What the paging device has still to get, were nothing written. */
  ghost function Undelivered(e: EventId, s: Server, progress: Progress): nat {
    if progress.Complete? then 0
    else |Remaining(Eligible(s, e, progress.asOf, None), Some(progress.after))|
  }

  lemma FirstPageKeepsInv(e: EventId, sys: System, limit: Option<int>)
    requires Inv(e, sys)
    ensures Inv(e, FirstPage(e, sys, limit))
  {
    var s1 := Next(e, sys, OpenSnapshot);
    StepKeepsInv(e, sys, OpenSnapshot);
    var s2 := Next(e, s1, ReadChangeCursor);
    StepKeepsInv(e, s1, ReadChangeCursor);
    var s3 := Next(e, s2, ReadSnapshotPage(limit));
    StepKeepsInv(e, s2, ReadSnapshotPage(limit));
    StepKeepsInv(e, s3, ApplySnapshotPage);
  }

  lemma LaterPageKeepsInv(e: EventId, sys: System, limit: Option<int>)
    requires Inv(e, sys)
    ensures Inv(e, LaterPage(e, sys, limit))
  {
    var s1 := Next(e, sys, ContinueSnapshot);
    StepKeepsInv(e, sys, ContinueSnapshot);
    var s2 := Next(e, s1, ReadSnapshotPage(limit));
    StepKeepsInv(e, s1, ReadSnapshotPage(limit));
    StepKeepsInv(e, s2, ApplySnapshotPage);
  }

  lemma FirstPageAdvances(e: EventId, sys: System, limit: Option<int>)
    requires Inv(e, sys) && sys.call.Idle?
    ensures var after, stock := FirstPage(e, sys, limit), Eligible(sys.server, e, sys.server.clock, None);
            && Inv(e, after) && after.call.Idle? && after.server == sys.server
            && after.device.cursor == LatestCursor(sys.server.journal, e)
            && (after.device.progress.Paging? ==>
                50 < |stock| && Undelivered(e, sys.server, after.device.progress) + 50 <= |stock|)
  {
    var s := sys.server;
    FirstPageKeepsInv(e, sys, limit);
    CursorNowIsLatest(s, e);
    PageLeavesLess(s, e, s.clock, None, ClampSnapshotLimit(limit));
    assert Next(e, Next(e, sys, OpenSnapshot), ReadChangeCursor).call ==
           SnapshotPositioned(s.clock, None, CursorAt(s.journal, e, s.clock));
  }

  lemma PageLeavesLess(s: Server, e: EventId, asOf: nat, after: Option<Key>, limit: nat)
    requires limit >= 50
    ensures var next, stock := ReadPage(s, e, asOf, after, limit).next, Eligible(s, e, asOf, None);
            next.Some? ==> 50 < |Remaining(stock, after)|
                           && |Remaining(stock, next)| + 50 <= |Remaining(stock, after)|
    ensures Remaining(Eligible(s, e, asOf, None), None) == Eligible(s, e, asOf, None)
  {
    PageIsPrefix(s, e, asOf, after, limit);
    RemainingIsEligible(s, e, asOf, after);
    if ReadPage(s, e, asOf, after, limit).next.Some? { PageShrinksRemaining(s, e, asOf, after, limit); }
  }

  /** What the page leaves of the paging: a further one, or none. */
  function ProgressAfter(asOf: nat, next: Option<Key>, changeCursor: nat): Progress {
    if next.Some? then Paging(asOf, next.value, changeCursor) else Complete
  }

  lemma LaterPageIs(e: EventId, sys: System, limit: Option<int>)
    requires sys.call.Idle?
    ensures sys.device.progress.Complete? ==> LaterPage(e, sys, limit) == sys
    ensures sys.device.progress.Paging? ==>
              var p, after := sys.device.progress, LaterPage(e, sys, limit);
              var next := ReadPage(sys.server, e, p.asOf, Some(p.after), ClampSnapshotLimit(limit)).next;
              && after.server == sys.server && after.call.Idle? && after.device.cursor == sys.device.cursor
              && after.device.progress == ProgressAfter(p.asOf, next, p.changeCursor)
  {
  }

  lemma LaterPageAdvances(e: EventId, sys: System, limit: Option<int>)
    requires Inv(e, sys) && sys.call.Idle?
    ensures var after, left := LaterPage(e, sys, limit), Undelivered(e, sys.server, sys.device.progress);
            && Inv(e, after) && after.call.Idle? && after.server == sys.server
            && after.device.cursor == sys.device.cursor
            && (after.device.progress.Paging? ==>
                50 < left && Undelivered(e, sys.server, after.device.progress) + 50 <= left)
  {
    LaterPageKeepsInv(e, sys, limit);
    LaterPageIs(e, sys, limit);
    var p := sys.device.progress;
    if p.Paging? { PageLeavesLess(sys.server, e, p.asOf, Some(p.after), ClampSnapshotLimit(limit)); }
  }

  lemma {:induction false} LaterPagesFinish(e: EventId, sys: System, limits: seq<Option<int>>)
    requires Inv(e, sys) && sys.call.Idle? && sys.device.cursor == LatestCursor(sys.server.journal, e)
    requires sys.device.progress.Paging? ==>
               limits != [] && Undelivered(e, sys.server, sys.device.progress) <= 50 * |limits|
    ensures var after := LaterPages(e, sys, limits);
            && Inv(e, after) && after.call.Idle? && after.server == sys.server && after.device.progress.Complete?
            && after.device.cursor == LatestCursor(sys.server.journal, e)
    decreases |limits|
  {
    if limits != [] {
      LaterPageAdvances(e, sys, limits[0]);
      LaterPagesFinish(e, LaterPage(e, sys, limits[0]), limits[1..]);
    }
  }

  /**
   * A snapshot that nothing interrupts, one page for every 50 visitors of the
   * event: whatever the device held before, it then holds exactly the event's
   * stock and follows the journal from its newest row.
   */
  lemma UndisturbedSnapshotIsWhole(e: EventId, sys: System, first: Option<int>, later: seq<Option<int>>)
    requires Inv(e, sys) && sys.call.Idle?
    requires |Eligible(sys.server, e, sys.server.clock, None)| <= 50 * (|later| + 1)
    ensures var after := LaterPages(e, FirstPage(e, sys, first), later);
            && after.server == sys.server && after.call.Idle? && after.device.progress.Complete?
            && after.device.replica == Stock(sys.server, e)
            && after.device.cursor == LatestCursor(sys.server.journal, e)
  {
    FirstPageAdvances(e, sys, first);
    var begun := FirstPage(e, sys, first);
    LaterPagesFinish(e, begun, later);
    var after := LaterPages(e, begun, later);
    forall r ensures LastRow(sys.server.journal, e, r) < after.device.cursor {
      if LastRow(sys.server.journal, e, r) >= 0 { LatestCursorBoundsRows(sys.server.journal, e, r); }
    }
    NothingLeftMeansEqual(e, sys.server, after.device);
  }

  lemma {:induction false} LatestCursorMeansRows(journal: seq<Change>, e: EventId, after: nat)
    ensures after < LatestCursor(journal, e) <==> RowsAfter(journal, e, after) != []
  {
    RowsAfterAreRows(journal, e, after);
    var latest := LatestCursor(journal, e);
    LatestCursorIsLast(journal, e);
    if RowsAfter(journal, e, after) != [] {
      var row := RowsAfter(journal, e, after)[0];
      assert IsRow(journal, e, row) && row.id <= latest;
    }
    if after < latest {
      RowsAfterHasRow(journal, e, after, latest - 1);
    }
  }

  lemma {:induction false} LatestCursorIsLast(journal: seq<Change>, e: EventId)
    ensures LatestCursor(journal, e) > 0 ==> journal[LatestCursor(journal, e) - 1].eventId == e
    ensures forall i :: LatestCursor(journal, e) <= i < |journal| ==> journal[i].eventId != e
  {
    if journal != [] && journal[|journal| - 1].eventId != e {
      LatestCursorIsLast(journal[..|journal| - 1], e);
    }
  }

  /** Whether rows are left can be told from the page's own flag or from the latest cursor. */
  lemma PageLeavesRows(journal: seq<Change>, e: EventId, after: nat, limit: nat)
    requires limit >= 1
    ensures var page := ReadChanges(journal, e, after, limit);
            page.hasMore || page.next < LatestCursor(journal, e) <==> RowsAfter(journal, e, page.next) != []
  {
    PageCursorAdvances(journal, e, after, limit);
    PageLeavesRest(journal, e, after, limit);
    LatestCursorMeansRows(journal, e, ReadChanges(journal, e, after, limit).next);
  }

  /** The delta endpoint when nothing interrupts it: its reply is what one undisturbed call of the protocol delivers. */
  method FindChangesForStaff(tables: VisitorTables, e: EventId, after: nat, limit: Option<int>)
    returns (changes: seq<Delivered>, next: nat, hasMore: bool)
    ensures var page := ReadChanges(tables.journal, e, after, ClampChangesLimit(limit));
            && changes == Deliver(Effective(page.rows), UpsertVisitors(tables.State(), e, page.rows))
            && next == page.next
    ensures hasMore <==> RowsAfter(tables.journal, e, next) != []
  {
    var page := ReadChanges(tables.journal, e, after, ClampChangesLimit(limit));
    PageCursorAdvances(tables.journal, e, after, ClampChangesLimit(limit));
    PageLeavesRows(tables.journal, e, after, ClampChangesLimit(limit));
    var effective := CompactChanges(page.rows);
    var visitors := UpsertVisitors(tables.State(), e, page.rows);
    next := page.next;
    hasMore := page.hasMore || next < LatestCursor(tables.journal, e);
    changes := DeliverAll(effective, visitors);
  }

  method DeliverAll(rows: seq<Row>, visitors: map<RegistrationId, Visitor>) returns (changes: seq<Delivered>)
    ensures changes == Deliver(rows, visitors)
  {
    changes := [];
    for i := 0 to |rows|
      invariant changes == Deliver(rows, visitors)[..i]
    {
      changes := changes + [DeliverRow(rows[i], visitors)];
    }
  }
}
