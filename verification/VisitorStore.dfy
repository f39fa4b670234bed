/**
 * The server side of visitor replication: the Registration table and the
 * VisitorChange journal that its triggers fill, one row per visible write.
 * Journal row `journal[i]` has the auto-increment id `i + 1`, so the query
 * "id > after" selects the rows at index `after` and beyond.
 */
module VisitorStore {
  import opened Wrappers

  type EventId = nat
  type RegistrationId = nat
  type Visitor = string

  datatype Operation = Upsert | Delete

  datatype Change = Change(eventId: EventId, registrationId: RegistrationId, operation: Operation, changedAt: nat)

  datatype Registration = Registration(eventId: EventId, createdAt: nat, visitor: Visitor)

  datatype Server = Server(clock: nat, registrations: map<RegistrationId, Registration>, journal: seq<Change>)

  datatype Write =
    | Tick(elapsed: nat)
    | Create(id: RegistrationId, eventId: EventId, visitor: Visitor)
    | Update(id: RegistrationId, visitor: Visitor)
    | Remove(id: RegistrationId)

  const EMPTY_SERVER := Server(0, map[], [])

  /** One committed write together with the row its trigger appends. A duplicate id or a missing row fails the write. */
  function Apply(s: Server, w: Write): Server {
    match w
    case Tick(elapsed) => s.(clock := s.clock + elapsed)
    case Create(id, eventId, visitor) =>
      if id in s.registrations then s
      else s.(registrations := s.registrations[id := Registration(eventId, s.clock, visitor)],
              journal := s.journal + [Change(eventId, id, Upsert, s.clock)])
    case Update(id, visitor) =>
      if id !in s.registrations || s.registrations[id].visitor == visitor then s
      else s.(registrations := s.registrations[id := s.registrations[id].(visitor := visitor)],
              journal := s.journal + [Change(s.registrations[id].eventId, id, Upsert, s.clock)])
    case Remove(id) =>
      if id !in s.registrations then s
      else s.(registrations := s.registrations - {id},
              journal := s.journal + [Change(s.registrations[id].eventId, id, Delete, s.clock)])
  }

  /** What the server currently shows for a registration of an event. */
  function Shown(s: Server, e: EventId, r: RegistrationId): Option<Visitor> {
    if r in s.registrations && s.registrations[r].eventId == e then Some(s.registrations[r].visitor) else None
  }

  /** The whole stock of an event. */
  function Stock(s: Server, e: EventId): map<RegistrationId, Visitor> {
    map r | r in s.registrations && s.registrations[r].eventId == e :: s.registrations[r].visitor
  }

  predicate Concerns(c: Change, e: EventId, r: RegistrationId) {
    c.eventId == e && c.registrationId == r
  }

  /** Index of the newest journal row about `r` in event `e`, or -1. */
  function LastRow(journal: seq<Change>, e: EventId, r: RegistrationId): (i: int)
    ensures -1 <= i < |journal|
    ensures i >= 0 ==> Concerns(journal[i], e, r)
    ensures forall k :: i < k < |journal| ==> !Concerns(journal[k], e, r)
  {
    if |journal| == 0 then -1
    else if Concerns(journal[|journal| - 1], e, r) then |journal| - 1
    else LastRow(journal[..|journal| - 1], e, r)
  }

  /** Journal order agrees with time, and the newest row of every registration tells whether it exists. */
  ghost predicate Valid(s: Server) {
    && (forall i :: 0 <= i < |s.journal| ==> s.journal[i].changedAt <= s.clock)
    && (forall i, k :: 0 <= i <= k < |s.journal| ==> s.journal[i].changedAt <= s.journal[k].changedAt)
    && (forall r :: r in s.registrations ==> Journaled(s, r))
    && (forall e, r :: UpsertedLast(s.journal, e, r) ==> r in s.registrations && s.registrations[r].eventId == e)
  }

  ghost predicate UpsertedLast(journal: seq<Change>, e: EventId, r: RegistrationId) {
    var i := LastRow(journal, e, r);
    i >= 0 && journal[i].operation == Upsert
  }

  ghost predicate Journaled(s: Server, r: RegistrationId)
    requires r in s.registrations
  {
    var reg := s.registrations[r];
    var i := LastRow(s.journal, reg.eventId, r);
    && reg.createdAt <= s.clock
    && i >= 0 && s.journal[i].operation == Upsert && reg.createdAt <= s.journal[i].changedAt
  }

  lemma LastRowAppend(journal: seq<Change>, c: Change, e: EventId, r: RegistrationId)
    ensures LastRow(journal + [c], e, r) == if Concerns(c, e, r) then |journal| else LastRow(journal, e, r)
  {
    assert (journal + [c])[..|journal|] == journal;
  }

  lemma ApplyKeepsJournaled(s: Server, w: Write, r: RegistrationId)
    requires r in Apply(s, w).registrations && (r in s.registrations ==> Journaled(s, r))
    ensures Journaled(Apply(s, w), r)
  {
    var t := Apply(s, w);
    if |t.journal| > |s.journal| {
      LastRowAppend(s.journal, t.journal[|s.journal|], t.registrations[r].eventId, r);
    }
  }

  /** A write appends at most one row, and an UPSERT row names a registration of its event. */
  lemma WriteAppends(s: Server, w: Write)
    ensures var t := Apply(s, w);
            && (t.journal == s.journal || t.journal == s.journal + [t.journal[|t.journal| - 1]])
            && s.clock <= t.clock
            && (t.journal == s.journal ==>
                forall r :: r in s.registrations ==>
                              r in t.registrations && t.registrations[r].eventId == s.registrations[r].eventId)
            && (t.journal != s.journal ==>
                var c := t.journal[|s.journal|];
                c.operation == Upsert ==> c.registrationId in t.registrations
                                          && t.registrations[c.registrationId].eventId == c.eventId)
  {
  }

  lemma OtherRowStays(s: Server, w: Write, e: EventId, r: RegistrationId)
    requires Apply(s, w).journal != s.journal && !Concerns(Apply(s, w).journal[|s.journal|], e, r)
    requires r in s.registrations && s.registrations[r].eventId == e
    ensures r in Apply(s, w).registrations && Apply(s, w).registrations[r].eventId == e
  {
  }

  lemma ApplyKeepsUpsertedLast(s: Server, w: Write, e: EventId, r: RegistrationId)
    requires Valid(s) && UpsertedLast(Apply(s, w).journal, e, r)
    ensures r in Apply(s, w).registrations && Apply(s, w).registrations[r].eventId == e
  {
    var t := Apply(s, w);
    WriteAppends(s, w);
    if |t.journal| > |s.journal| {
      var c := t.journal[|s.journal|];
      LastRowAppend(s.journal, c, e, r);
      if Concerns(c, e, r) {
        assert c.operation == Upsert;
      } else {
        assert UpsertedLast(s.journal, e, r);
        OtherRowStays(s, w, e, r);
      }
    } else {
      assert UpsertedLast(s.journal, e, r);
    }
  }

  lemma ApplyKeepsTime(s: Server, w: Write)
    requires Valid(s)
    ensures var t := Apply(s, w);
            && s.journal <= t.journal && s.clock <= t.clock
            && (forall i :: 0 <= i < |t.journal| ==> t.journal[i].changedAt <= t.clock)
            && (forall i, k :: 0 <= i <= k < |t.journal| ==> t.journal[i].changedAt <= t.journal[k].changedAt)
  {
    var n := |s.journal|;
    forall i | 0 <= i < n ensures s.journal[i].changedAt <= s.clock {}
    assert Apply(s, w).journal[..n] == s.journal;
    assert |Apply(s, w).journal| <= n + 1;
  }

  lemma ApplyKeepsAllJournaled(s: Server, w: Write)
    requires forall r :: r in s.registrations ==> Journaled(s, r)
    ensures forall r :: r in Apply(s, w).registrations ==> Journaled(Apply(s, w), r)
  {
    forall r | r in Apply(s, w).registrations ensures Journaled(Apply(s, w), r) {
      if r in s.registrations { assert Journaled(s, r); }
      ApplyKeepsJournaled(s, w, r);
    }
  }

  lemma ApplyKeepsAllUpserted(s: Server, w: Write)
    requires Valid(s)
    ensures forall e, r :: UpsertedLast(Apply(s, w).journal, e, r) ==>
              r in Apply(s, w).registrations && Apply(s, w).registrations[r].eventId == e
  {
    forall e, r | UpsertedLast(Apply(s, w).journal, e, r)
      ensures r in Apply(s, w).registrations && Apply(s, w).registrations[r].eventId == e
    {
      ApplyKeepsUpsertedLast(s, w, e, r);
    }
  }

  lemma ApplyKeepsValid(s: Server, w: Write)
    requires Valid(s)
    ensures Valid(Apply(s, w))
    ensures s.journal <= Apply(s, w).journal && s.clock <= Apply(s, w).clock
  {
    ApplyKeepsTime(s, w);
    ApplyKeepsAllJournaled(s, w);
    ApplyKeepsAllUpserted(s, w);
  }

  /**
   * The replica may show `v` for `r` at journal position `n`: either that is
   * what the server shows now, or a row at or beyond `n` still tells the device
   * to look again.
   */
  ghost predicate Settled(s: Server, e: EventId, r: RegistrationId, v: Option<Visitor>, n: nat) {
    Shown(s, e, r) == v || LastRow(s.journal, e, r) >= n
  }

  /** A write never makes a settled value stale without leaving a row behind. */
  lemma SettledIsStable(s: Server, w: Write, e: EventId, r: RegistrationId, v: Option<Visitor>, n: nat)
    requires n <= |s.journal| && Settled(s, e, r, v, n)
    ensures Settled(Apply(s, w), e, r, v, n)
  {
    var t := Apply(s, w);
    if |t.journal| > |s.journal| {
      var c := t.journal[|s.journal|];
      assert t.journal == s.journal + [c];
      LastRowAppend(s.journal, c, e, r);
    }
  }

  /** The registration a write is about. */
  predicate About(w: Write, r: RegistrationId) { !w.Tick? && w.id == r }

  /**
   * What a write does to what is shown: a new registration appears under its
   * own event at the time of the clock, an update replaces the copy where it is
   * shown, a removal takes it away, and nobody else changes.
   */
  lemma WriteShows(s: Server, w: Write, e: EventId, r: RegistrationId)
    ensures !About(w, r) ==> Shown(Apply(s, w), e, r) == Shown(s, e, r)
    ensures w.Create? && w.id !in s.registrations ==>
              && Shown(Apply(s, w), w.eventId, w.id) == Some(w.visitor)
              && (e != w.eventId ==> Shown(Apply(s, w), e, w.id).None?)
              && Apply(s, w).registrations[w.id].createdAt == s.clock
    ensures w.Create? && w.id in s.registrations ==> Apply(s, w) == s
    ensures w.Update? ==> (Shown(Apply(s, w), e, w.id) == if Shown(s, e, w.id).Some? then Some(w.visitor) else None)
    ensures w.Remove? ==> Shown(Apply(s, w), e, w.id).None?
    ensures Apply(s, w).clock == s.clock + if w.Tick? then w.elapsed else 0
    ensures r in s.registrations && r in Apply(s, w).registrations ==>
              Apply(s, w).registrations[r].createdAt == s.registrations[r].createdAt
  {
  }

  ghost predicate Visible(s: Server, w: Write) { exists e, r :: Shown(Apply(s, w), e, r) != Shown(s, e, r) }

  /** A row is journaled exactly when something shown changes: an UPSERT of what is shown then, else a DELETE. */
  lemma JournaledIffVisible(s: Server, w: Write)
    ensures Apply(s, w).journal != s.journal <==> Visible(s, w)
    ensures Visible(s, w) ==>
              && |Apply(s, w).journal| == |s.journal| + 1 && s.journal <= Apply(s, w).journal
              && var c := Apply(s, w).journal[|s.journal|];
                 && c.changedAt == s.clock && Shown(Apply(s, w), c.eventId, c.registrationId) !=
                    Shown(s, c.eventId, c.registrationId)
                 && (c.operation == Upsert <==> Shown(Apply(s, w), c.eventId, c.registrationId).Some?)
  {
    if !w.Tick? && (w.id in s.registrations || w.id in Apply(s, w).registrations) {
      var e := if w.Create? then w.eventId else s.registrations[w.id].eventId;
      WriteShows(s, w, e, w.id);
      assert Apply(s, w).journal != s.journal ==> Shown(Apply(s, w), e, w.id) != Shown(s, e, w.id);
    }
  }

  /** The tables, and the writes other requests perform on them. */
  class VisitorTables {
    var clock: nat
    var registrations: map<RegistrationId, Registration>
    var journal: seq<Change>

    function State(): Server reads this { Server(clock, registrations, journal) }

    constructor ()
      ensures State() == EMPTY_SERVER
    {
      clock, registrations, journal := 0, map[], [];
    }

    method Insert(id: RegistrationId, eventId: EventId, visitor: Visitor) returns (inserted: bool)
      modifies this
      ensures inserted == (id !in old(registrations))
      ensures State() == Apply(old(State()), Create(id, eventId, visitor))
    {
      inserted := id !in registrations;
      if inserted {
        registrations := registrations[id := Registration(eventId, clock, visitor)];
        AfterWrite(eventId, id, Upsert);
      }
    }

    method Modify(id: RegistrationId, visitor: Visitor) returns (found: bool)
      modifies this
      ensures found == (id in old(registrations))
      ensures State() == Apply(old(State()), Update(id, visitor))
    {
      found := id in registrations;
      if found && registrations[id].visitor != visitor {
        registrations := registrations[id := registrations[id].(visitor := visitor)];
        AfterWrite(registrations[id].eventId, id, Upsert);
      }
    }

    method Erase(id: RegistrationId) returns (found: bool)
      modifies this
      ensures found == (id in old(registrations))
      ensures State() == Apply(old(State()), Remove(id))
    {
      found := id in registrations;
      if found {
        var eventId := registrations[id].eventId;
        registrations := registrations - {id};
        AfterWrite(eventId, id, Delete);
      }
    }

    /** The database triggers. */
    method AfterWrite(eventId: EventId, id: RegistrationId, operation: Operation)
      modifies this`journal
      ensures journal == old(journal) + [Change(eventId, id, operation, clock)]
    {
      journal := journal + [Change(eventId, id, operation, clock)];
    }
  }
}
