/** A run from empty tables in which one visitor enters twice. */
module ScanReentryRun {
  import opened Wrappers
  import opened Text
  import opened ScanTables
  import opened ScanInvariants
  import opened ScanRequests
  import opened ScanReentry

  const TOKEN := QrToken(0, "k", 0, 0, TokenActive, 0, 9)

  /**
   * One visitor with one token, read as the compact code "c" and, through a
   * synced mapping, as the offline code "s".
   */
  const TABLES := Env(map[0 := Event(false, false)], map[0 := Device(0, true)], map[], map[0 := Gate(0, true, None)],
                      map[0 := Attendee(true, 0, "v")], [TOKEN], [Mapping("t", 0, "o", Some(0), None, Synced)],
                      map[], map["c" := "k"], map["s" := SignedOffline(0, 0, "t", "o", "h")], 0, {})

  const UNREADABLE := Scan(1, 0, 0, None, Some(0), "x", Entry, 1, None)
  const READABLE := Scan(2, 0, 0, None, Some(0), "c", Entry, 2, None)
  const UPLOAD := Upload(1, 0, 0, None, 0, "s", None, None, Exit, 3, None)

  const QUEUE := Step(TABLES, IngestFast(UNREADABLE), 9)
  const WORK := Step(TABLES, ProcessRawScan(1, 0), 9)
  const ENTER := Step(TABLES, Ingest(READABLE), 9)
  const REPLAY := Step(TABLES, IngestOffline(UPLOAD), 9)

  const EMPTY := Db(map[], map[], map[], 0)
  const QUEUED := RawScan(0, UNREADABLE, RawPending, None, "", None, None)
  const REJECTED := RawScan(0, UNREADABLE, RawInvalid, Some(Denied), "INVALID_QR", None, None)
  const LET_IN := Decision(0, 0, Allowed, "ALLOWED")
  const ENTERED := RawScan(1, READABLE, RawProcessed, Some(Allowed), "ALLOWED", Some(0), Some(0))
  const AFTER_ENTRY := Db(map[1 := REJECTED, 2 := ENTERED], map[1 := MovementFor(2, READABLE, LET_IN)], map[], 3)

  lemma Queued()
    ensures Next(EMPTY, QUEUE) == EMPTY.(raws := map[1 := QUEUED], nextId := 1)
  {
    OneWrite(EMPTY, PlanIngestFast(EMPTY, UNREADABLE));
  }

  lemma CodesRead()
    ensures ValidateQr(TABLES, "x", 0) == Invalid("INVALID_SIGNATURE", None, None)
    ensures ValidateQr(TABLES, "c", 0) == Valid(0, 0, "v")
  {
    TrimIsIdentity("x");
    TrimIsIdentity("c");
    assert FindToken(TABLES.tokens, "k") == Some(TOKEN);
  }

  lemma Worked(db: Db)
    requires db == EMPTY.(raws := map[1 := QUEUED], nextId := 1)
    ensures Next(db, WORK) == EMPTY.(raws := map[1 := REJECTED], nextId := 1)
  {
    CodesRead();
    var w := UpdateRaw(1, RawInvalid, Some(Denied), "INVALID_QR", None, None);
    assert PlanProcessRaw(db, TABLES, 1, 0) == [w];
    OneWrite(db, [w]);
  }

  lemma Entered(db: Db)
    requires db == EMPTY.(raws := map[1 := REJECTED], nextId := 1)
    ensures Next(db, ENTER) == AFTER_ENTRY
  {
    CodesRead();
    var w := InsertProcessed(READABLE, LET_IN);
    assert PlanIngest(db, TABLES, READABLE) == [w];
    OneWrite(db, [w]);
  }

  lemma {:induction false} RunAppend(db: Db, steps: seq<Step>, s: Step)
    ensures Run(db, steps + [s]) == Next(Run(db, steps), s)
    decreases |steps|
  {
    if steps == [] {
      assert [s][1..] == [] && steps + [s] == [s];
      assert Run(Next(db, s), []) == Next(db, s);
    } else {
      assert (steps + [s])[1..] == steps[1..] + [s];
      RunAppend(Next(db, steps[0]), steps[1..], s);
    }
  }

  lemma ReachesEntry()
    ensures Run(EMPTY, [QUEUE] + [WORK] + [ENTER]) == AFTER_ENTRY
  {
    Queued();
    Worked(Next(EMPTY, QUEUE));
    Entered(Next(Next(EMPTY, QUEUE), WORK));
    RunAppend(EMPTY, [], QUEUE);
    assert [] + [QUEUE] == [QUEUE];
    RunAppend(EMPTY, [QUEUE], WORK);
    RunAppend(EMPTY, [QUEUE] + [WORK], ENTER);
  }

  lemma ReplaySendsBreaking()
    ensures SendsBreaking(AFTER_ENTRY, TABLES, Sent(AFTER_ENTRY, REPLAY), 0, 0)
  {
    var row := UploadRow(UPLOAD, TABLES.signed["s"], Some(0));
    var stored := Apply(AFTER_ENTRY, InsertOffline(1, row));
    assert FindMapping(TABLES.mappings, "t") == Some(TABLES.mappings[0]);
    assert FindLinked(TABLES.mappings, row) == Some(TABLES.mappings[0]);
    assert FindCanonical(TABLES.tokens, 0, None, true) == Some(TOKEN);
    assert ContextOf(TABLES, row) == Known(TOKEN, "v");
    assert 1 in AFTER_ENTRY.movements && IsEntry(AFTER_ENTRY.movements[1], 0, 0);
    assert stored.movements == AFTER_ENTRY.movements;
    assert MakesMovement(stored, TABLES, 1) && BreakingReplay(stored, TABLES, 1, 0, 0);
    var writes := PlanProcess(stored, TABLES, 1).0;
    assert |writes| == 2 && writes[0].UpdateProcessed? && writes[0].operationId == 1;
    assert SendsBreaking(stored, TABLES, writes, 0, 0);
    var plan := PlanOffline(AFTER_ENTRY, TABLES, UPLOAD);
    assert plan == [InsertOffline(1, row)] + writes && plan[1..] == writes;
    assert Sent(AFTER_ENTRY, REPLAY) == plan;
  }

  /**
   * The exception to the re-entry rule is real: a code that cannot be read is
   * queued as an entry and rejected without a movement; the visitor enters by
   * another operation; the first operation is then uploaded as an exit of the
   * same visitor, is decided as one, and is written as a second entry.
   */
  lemma EntersTwice()
    ensures var steps := [QUEUE] + [WORK] + [ENTER];
            && NoReentry(TABLES, 0) && OneEntry(Run(EMPTY, steps), 0, 0)
            && !OneEntry(Run(EMPTY, steps + [REPLAY]), 0, 0)
  {
    var steps := [QUEUE] + [WORK] + [ENTER];
    ReachesEntry();
    RunAppend(EMPTY, steps, REPLAY);
    EmptyTablesAreValid();
    ExactlyOnce(EMPTY, steps);
    ReplaySendsBreaking();
    StepBreaksRule(AFTER_ENTRY, REPLAY, 0, 0);
  }
}
