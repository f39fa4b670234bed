/**
 * Keyset paging of the offline snapshot: pages of registrations with
 * createdAt up to a fixed instant, ordered by (createdAt, id), each request
 * continuing after the last key of the page before, while the server changes.
 */
module SnapshotPaging {
  import opened Wrappers
  import opened VisitorStore

  datatype Key = Key(createdAt: nat, id: RegistrationId)

  predicate Before(a: Key, b: Key) {
    a.createdAt < b.createdAt || (a.createdAt == b.createdAt && a.id < b.id)
  }

  predicate Beyond(after: Option<Key>, k: Key) {
    after.None? || Before(after.value, k)
  }

  function ClampSnapshotLimit(requested: Option<int>): (limit: nat)
    ensures 50 <= limit <= 500
  {
    var asked := if requested.None? || requested.value == 0 then 500 else requested.value;
    if asked < 50 then 50 else if asked > 500 then 500 else asked
  }

  /** A limit within the bounds is used as it is, and the largest when none is asked for. */
  lemma LimitIsAsked(requested: Option<int>)
    ensures requested.Some? && 50 <= requested.value <= 500 ==> ClampSnapshotLimit(requested) == requested.value
    ensures requested.None? ==> ClampSnapshotLimit(requested) == 500
  {
  }

  /** The rows the page query selects, as keys. */
  function Eligible(s: Server, e: EventId, asOf: nat, after: Option<Key>): set<Key> {
    set r | r in s.registrations && s.registrations[r].eventId == e && s.registrations[r].createdAt <= asOf
            && Beyond(after, Key(s.registrations[r].createdAt, r))
      :: Key(s.registrations[r].createdAt, r)
  }

  ghost predicate IsFirst(keys: set<Key>, k: Key) {
    k in keys && forall other :: other in keys ==> other == k || Before(k, other)
  }

  lemma {:induction false} FirstExists(keys: set<Key>)
    requires keys != {}
    ensures exists k :: IsFirst(keys, k)
  {
    var x :| x in keys;
    var rest := keys - {x};
    if rest == {} {
      assert keys == {x};
      assert IsFirst(keys, x);
    } else {
      FirstExists(rest);
      var y :| IsFirst(rest, y);
      var first := if Before(x, y) then x else y;
      forall other | other in keys ensures other == first || Before(first, other) {
        if other != x { assert other in rest; }
      }
      assert IsFirst(keys, first);
    }
  }

  ghost predicate Increasing(keys: seq<Key>) {
    forall i, j :: 0 <= i < j < |keys| ==> Before(keys[i], keys[j])
  }

  /** orderBy createdAt, id: the only increasing listing of the set. */
  ghost function Ordered(keys: set<Key>): (listing: seq<Key>)
    ensures |listing| == |keys| && Increasing(listing)
    ensures forall k :: k in keys <==> k in listing
    decreases |keys|
  {
    if keys == {} then []
    else
      FirstExists(keys);
      var k :| IsFirst(keys, k);
      var rest := Ordered(keys - {k});
      assert forall x :: x in rest ==> x in keys - {k};
      [k] + rest
  }

  datatype Page = Page(items: seq<Key>, next: Option<Key>)

  /** The extra row that the query takes only tells whether another page exists. */
  function CutPage(rows: seq<Key>, limit: nat): Page
    requires limit > 0
  {
    if |rows| > limit then Page(rows[..limit], Some(rows[limit - 1])) else Page(rows, None)
  }

  ghost function ReadPage(s: Server, e: EventId, asOf: nat, after: Option<Key>, limit: nat): Page
    requires limit > 0
  {
    var all := Ordered(Eligible(s, e, asOf, after));
    CutPage(if |all| > limit + 1 then all[..limit + 1] else all, limit)
  }

  /** A page is the first part of what is eligible; what it leaves out lies beyond its own cursor. */
  lemma {:induction false} PageIsPrefix(s: Server, e: EventId, asOf: nat, after: Option<Key>, limit: nat)
    requires limit > 0
    ensures var page := ReadPage(s, e, asOf, after, limit);
            && Increasing(page.items)
            && (forall k :: k in page.items ==> k in Eligible(s, e, asOf, after))
            && (forall k :: k in Eligible(s, e, asOf, after) && k !in page.items ==>
                              page.next.Some? && Before(page.next.value, k))
            && (page.next.Some? ==> |page.items| == limit && page.next.value == page.items[limit - 1])
            && (page.next.Some? <==> |Eligible(s, e, asOf, after)| > limit)
  {
    var all := Ordered(Eligible(s, e, asOf, after));
    var page := ReadPage(s, e, asOf, after, limit);
    assert page.items <= all;
    forall k | k in Eligible(s, e, asOf, after) && k !in page.items
      ensures page.next.Some? && Before(page.next.value, k)
    {
      var i :| 0 <= i < |all| && all[i] == k;
      assert i >= |page.items|;
    }
  }

  /** One page request: the server as the page query sees it, and the requested limit. */
  datatype Request = Request(server: Server, limit: Option<int>)

  datatype Outcome = Outcome(items: seq<Key>, finished: bool)

  /** Follow nextCursor through a sequence of requests until it is null. */
  ghost function Download(requests: seq<Request>, e: EventId, asOf: nat, after: Option<Key>): Outcome {
    if requests == [] then Outcome([], false)
    else
      var page := ReadPage(requests[0].server, e, asOf, after, ClampSnapshotLimit(requests[0].limit));
      if page.next.None? then Outcome(page.items, true)
      else
        var rest := Download(requests[1..], e, asOf, page.next);
        Outcome(page.items + rest.items, rest.finished)
  }

  lemma JoinIncreasing(a: seq<Key>, b: seq<Key>)
    requires a != [] && Increasing(a) && Increasing(b)
    requires forall k :: k in b ==> Before(a[|a| - 1], k)
    ensures Increasing(a + b)
  {
    forall i, j | 0 <= i < j < |a + b| ensures Before((a + b)[i], (a + b)[j]) {
      if i < |a| <= j {
        assert (a + b)[j] == b[j - |a|];
        assert b[j - |a|] in b;
      }
    }
  }

  /** Whatever happens on the server, no visitor is delivered twice and the order is kept. */
  lemma {:induction false} DownloadIsOrdered(requests: seq<Request>, e: EventId, asOf: nat, after: Option<Key>)
    ensures var items := Download(requests, e, asOf, after).items;
            && Increasing(items)
            && forall k :: k in items ==> Beyond(after, k) && k.createdAt <= asOf
  {
    if requests != [] {
      var limit := ClampSnapshotLimit(requests[0].limit);
      PageIsPrefix(requests[0].server, e, asOf, after, limit);
      var page := ReadPage(requests[0].server, e, asOf, after, limit);
      if page.next.Some? {
        DownloadIsOrdered(requests[1..], e, asOf, page.next);
        var rest := Download(requests[1..], e, asOf, page.next).items;
        JoinIncreasing(page.items, rest);
        assert forall k :: k in page.items + rest ==> k in page.items || k in rest;
        assert forall k :: k in rest ==> Before(page.items[limit - 1], k);
        assert page.items[limit - 1] in page.items;
      }
    }
  }

  /**
   * A registration that is there for the whole download is delivered, whatever is
   * created, changed or deleted beside it.
   */
  lemma {:induction false} DownloadIsComplete(requests: seq<Request>, e: EventId, asOf: nat, after: Option<Key>, k: Key)
    requires Download(requests, e, asOf, after).finished
    requires forall i :: 0 <= i < |requests| ==> k in Eligible(requests[i].server, e, asOf, None)
    requires Beyond(after, k)
    ensures k in Download(requests, e, asOf, after).items
  {
    var limit := ClampSnapshotLimit(requests[0].limit);
    PageIsPrefix(requests[0].server, e, asOf, after, limit);
    var page := ReadPage(requests[0].server, e, asOf, after, limit);
    assert k in Eligible(requests[0].server, e, asOf, None);
    assert k in Eligible(requests[0].server, e, asOf, after);
    if k !in page.items {
      DownloadIsComplete(requests[1..], e, asOf, page.next, k);
    }
  }

  /** In plain terms: ascending by creation, and by id among those created at once. */
  lemma DownloadAscends(requests: seq<Request>, e: EventId, asOf: nat, i: nat, j: nat)
    requires i < j < |Download(requests, e, asOf, None).items|
    ensures var items := Download(requests, e, asOf, None).items;
            && items[i].createdAt <= items[j].createdAt <= asOf
            && (items[i].createdAt == items[j].createdAt ==> items[i].id < items[j].id)
  {
    DownloadIsOrdered(requests, e, asOf, None);
    assert Before(Download(requests, e, asOf, None).items[i], Download(requests, e, asOf, None).items[j]);
  }

  lemma {:induction false} SameListing(a: seq<Key>, b: seq<Key>)
    requires Increasing(a) && Increasing(b) && forall k :: k in a <==> k in b
    ensures a == b
  {
    if a == [] || b == [] {
      var k := if a != [] then a[0] else if b != [] then b[0] else Key(0, 0);
      assert k in a <==> k in b;
    } else {
      assert a[0] in b && b[0] in a;
      assert a[0] == b[0];
      forall k ensures k in a[1..] <==> k in b[1..] {
        if k in a[1..] { assert k in b; assert k != a[0]; }
        if k in b[1..] { assert k in a; assert k != b[0]; }
      }
      SameListing(a[1..], b[1..]);
    }
  }

  /** A finished download over an unchanged stock is exactly that stock, in order. */
  lemma StableDownloadIsExact(requests: seq<Request>, e: EventId, asOf: nat, stock: set<Key>)
    requires Download(requests, e, asOf, None).finished
    requires forall i :: 0 <= i < |requests| ==> Eligible(requests[i].server, e, asOf, None) == stock
    ensures Download(requests, e, asOf, None).items == Ordered(stock)
  {
    var items := Download(requests, e, asOf, None).items;
    DownloadIsOrdered(requests, e, asOf, None);
    forall k ensures k in items <==> k in Ordered(stock) {
      if k in stock { DownloadIsComplete(requests, e, asOf, None, k); }
      if k in items { DownloadIsSound(requests, e, asOf, None, k, stock); }
    }
    SameListing(items, Ordered(stock));
  }

  lemma {:induction false} DownloadIsSound(requests: seq<Request>, e: EventId, asOf: nat, after: Option<Key>, k: Key,
                                           stock: set<Key>)
    requires k in Download(requests, e, asOf, after).items
    requires forall i :: 0 <= i < |requests| ==> Eligible(requests[i].server, e, asOf, None) <= stock
    ensures k in stock
  {
    var limit := ClampSnapshotLimit(requests[0].limit);
    PageIsPrefix(requests[0].server, e, asOf, after, limit);
    var page := ReadPage(requests[0].server, e, asOf, after, limit);
    if k in page.items {
      assert k in Eligible(requests[0].server, e, asOf, None);
    } else {
      DownloadIsSound(requests[1..], e, asOf, page.next, k, stock);
    }
  }

  function Remaining(stock: set<Key>, after: Option<Key>): set<Key> {
    set k | k in stock && Beyond(after, k)
  }

  lemma RemainingIsEligible(s: Server, e: EventId, asOf: nat, after: Option<Key>)
    ensures Eligible(s, e, asOf, after) == Remaining(Eligible(s, e, asOf, None), after)
  {
    var left := Remaining(Eligible(s, e, asOf, None), after);
    forall k ensures k in left <==> k in Eligible(s, e, asOf, after) {
      if k in Eligible(s, e, asOf, after) { assert k in Eligible(s, e, asOf, None); }
    }
  }

  lemma DeliveredAreGone(stock: set<Key>, after: Option<Key>, items: seq<Key>)
    requires items != [] && Increasing(items) && forall k :: k in items ==> k in Remaining(stock, after)
    ensures |Remaining(stock, Some(items[|items| - 1]))| + |items| <= |Remaining(stock, after)|
  {
    var delivered := set k | k in items;
    var last := items[|items| - 1];
    var before, later := Remaining(stock, after), Remaining(stock, Some(last));
    ItemsAreDistinct(items);
    forall k | k in items ensures k !in later {
      LastIsLargest(items, k);
    }
    assert last in before;
    SubsetSize(later, before - delivered);
    assert delivered <= before;
  }

  lemma PageShrinksRemaining(s: Server, e: EventId, asOf: nat, after: Option<Key>, limit: nat)
    requires limit > 0 && ReadPage(s, e, asOf, after, limit).next.Some?
    ensures var stock := Eligible(s, e, asOf, None);
            |Remaining(stock, ReadPage(s, e, asOf, after, limit).next)| + limit <= |Remaining(stock, after)|
  {
    PageIsPrefix(s, e, asOf, after, limit);
    RemainingIsEligible(s, e, asOf, after);
    DeliveredAreGone(Eligible(s, e, asOf, None), after, ReadPage(s, e, asOf, after, limit).items);
  }

  lemma LastIsLargest(items: seq<Key>, k: Key)
    requires Increasing(items) && k in items
    ensures k == items[|items| - 1] || Before(k, items[|items| - 1])
  {
  }

  /** With an unchanged stock of N visitors, N / 50 requests (at least one) always reach a null cursor. */
  lemma {:induction false} StableDownloadTerminates(requests: seq<Request>, e: EventId, asOf: nat, after: Option<Key>,
                                                    stock: set<Key>)
    requires requests != []
    requires forall i :: 0 <= i < |requests| ==> Eligible(requests[i].server, e, asOf, None) == stock
    requires |Remaining(stock, after)| <= 50 * |requests|
    ensures Download(requests, e, asOf, after).finished
  {
    var limit := ClampSnapshotLimit(requests[0].limit);
    var s := requests[0].server;
    var page := ReadPage(s, e, asOf, after, limit);
    if page.next.Some? {
      PageShrinksRemaining(s, e, asOf, after, limit);
      if |requests| == 1 {
        RemainingIsEligible(s, e, asOf, after);
      } else {
        StableDownloadTerminates(requests[1..], e, asOf, page.next, stock);
      }
    }
  }

  lemma {:induction false} ItemsAreDistinct(items: seq<Key>)
    requires Increasing(items)
    ensures |set k | k in items| == |items|
  {
    if items != [] {
      var front := items[..|items| - 1];
      ItemsAreDistinct(front);
      assert (set k | k in items) == (set k | k in front) + {items[|items| - 1]};
    }
  }

  lemma {:induction false} SubsetSize(a: set<Key>, b: set<Key>)
    requires a <= b
    ensures |a| <= |b|
  {
    if a != {} {
      var x :| x in a;
      SubsetSize(a - {x}, b - {x});
    }
  }

  // ----- The stock as of an instant ---------------------------------------

  /**
   * Writes that leave the stock as of `asOf` alone: anything but the removal of
   * one of its members, or the creation of a new one while the clock has not
   * passed the instant.
   */
  predicate Harmless(s: Server, w: Write, e: EventId, asOf: nat) {
    match w
    case Tick(_) => true
    case Update(_, _) => true
    case Create(id, eventId, _) => eventId != e || id in s.registrations || asOf < s.clock
    case Remove(id) =>
      id !in s.registrations || s.registrations[id].eventId != e || asOf < s.registrations[id].createdAt
  }

  /** Exactly those. */
  lemma StockChangesUnlessHarmless(s: Server, w: Write, e: EventId, asOf: nat)
    ensures Eligible(Apply(s, w), e, asOf, None) == Eligible(s, e, asOf, None) <==> Harmless(s, w, e, asOf)
  {
    var before, after := Eligible(s, e, asOf, None), Eligible(Apply(s, w), e, asOf, None);
    match w
    case Tick(_) => assert Apply(s, w).registrations == s.registrations;
    case Update(id, visitor) =>
      forall k ensures k in before <==> k in after { SameKey(s, w, k, e, asOf); }
    case Create(id, eventId, _) =>
      var k := Key(s.clock, id);
      if !Harmless(s, w, e, asOf) {
        assert id in Apply(s, w).registrations && k in after;
        assert k !in before;
      } else {
        forall x ensures x in before <==> x in after { SameKey(s, w, x, e, asOf); }
      }
    case Remove(id) =>
      if !Harmless(s, w, e, asOf) {
        var k := Key(s.registrations[id].createdAt, id);
        assert k in before && k !in after;
      } else {
        forall x ensures x in before <==> x in after { SameKey(s, w, x, e, asOf); }
      }
  }

  lemma EligibleIs(s: Server, e: EventId, asOf: nat, k: Key)
    ensures k in Eligible(s, e, asOf, None) <==>
              k.id in s.registrations && s.registrations[k.id].eventId == e
              && s.registrations[k.id].createdAt == k.createdAt <= asOf
  {
  }

  lemma SameKey(s: Server, w: Write, k: Key, e: EventId, asOf: nat)
    requires Harmless(s, w, e, asOf)
    ensures k in Eligible(s, e, asOf, None) <==> k in Eligible(Apply(s, w), e, asOf, None)
  {
    EligibleIs(s, e, asOf, k);
    EligibleIs(Apply(s, w), e, asOf, k);
  }

  // ----- A download while the server is written ---------------------------

  /** What happens before a page is read, and the limit the device asks with. */
  datatype Turn = Turn(writes: seq<Write>, limit: Option<int>)

  function ApplyAll(s: Server, writes: seq<Write>): Server
    decreases |writes|
  {
    if writes == [] then s else ApplyAll(Apply(s, writes[0]), writes[1..])
  }

  function Requests(s: Server, turns: seq<Turn>): seq<Request>
    decreases |turns|
  {
    if turns == [] then []
    else
      var now := ApplyAll(s, turns[0].writes);
      [Request(now, turns[0].limit)] + Requests(now, turns[1..])
  }

  predicate AllHarmless(s: Server, writes: seq<Write>, e: EventId, asOf: nat)
    decreases |writes|
  {
    writes == [] || (Harmless(s, writes[0], e, asOf) && AllHarmless(Apply(s, writes[0]), writes[1..], e, asOf))
  }

  predicate Undisturbed(s: Server, turns: seq<Turn>, e: EventId, asOf: nat)
    decreases |turns|
  {
    turns == []
    || (AllHarmless(s, turns[0].writes, e, asOf) && Undisturbed(ApplyAll(s, turns[0].writes), turns[1..], e, asOf))
  }

  lemma {:induction false} HarmlessKeepStock(s: Server, writes: seq<Write>, e: EventId, asOf: nat)
    requires AllHarmless(s, writes, e, asOf)
    ensures Eligible(ApplyAll(s, writes), e, asOf, None) == Eligible(s, e, asOf, None)
    decreases |writes|
  {
    if writes != [] {
      StockChangesUnlessHarmless(s, writes[0], e, asOf);
      HarmlessKeepStock(Apply(s, writes[0]), writes[1..], e, asOf);
    }
  }

  lemma {:induction false} RequestsSeeStock(s: Server, turns: seq<Turn>, e: EventId, asOf: nat)
    requires Undisturbed(s, turns, e, asOf)
    ensures |Requests(s, turns)| == |turns|
    ensures forall i :: 0 <= i < |turns| ==>
            Eligible(Requests(s, turns)[i].server, e, asOf, None) == Eligible(s, e, asOf, None)
    decreases |turns|
  {
    if turns != [] {
      var now := ApplyAll(s, turns[0].writes);
      HarmlessKeepStock(s, turns[0].writes, e, asOf);
      RequestsSeeStock(now, turns[1..], e, asOf);
    }
  }

  /** Once the clock has passed the instant, nothing but a removal disturbs a download. */
  lemma {:induction false} OnlyRemovalsDisturb(s: Server, turns: seq<Turn>, e: EventId, asOf: nat)
    requires asOf < s.clock
    requires forall i, k :: 0 <= i < |turns| && 0 <= k < |turns[i].writes| ==> !turns[i].writes[k].Remove?
    ensures Undisturbed(s, turns, e, asOf)
    decreases |turns|
  {
    if turns != [] {
      NoRemovalIsHarmless(s, turns[0].writes, e, asOf);
      forall i, k | 0 <= i < |turns| - 1 && 0 <= k < |turns[1..][i].writes| ensures !turns[1..][i].writes[k].Remove? {
        assert turns[1..][i] == turns[i + 1];
      }
      OnlyRemovalsDisturb(ApplyAll(s, turns[0].writes), turns[1..], e, asOf);
    }
  }

  lemma {:induction false} NoRemovalIsHarmless(s: Server, writes: seq<Write>, e: EventId, asOf: nat)
    requires asOf < s.clock && forall k :: 0 <= k < |writes| ==> !writes[k].Remove?
    ensures AllHarmless(s, writes, e, asOf) && asOf < ApplyAll(s, writes).clock
    decreases |writes|
  {
    if writes != [] { NoRemovalIsHarmless(Apply(s, writes[0]), writes[1..], e, asOf); }
  }

  /**
   * Whatever is written before and between the pages, as long as no visitor of
   * the snapshot is removed and every creation falls after its instant: a
   * finished download is exactly the ordered stock as of that instant.
   */
  lemma DownloadIsExact(s: Server, turns: seq<Turn>, e: EventId, asOf: nat)
    requires Undisturbed(s, turns, e, asOf) && Download(Requests(s, turns), e, asOf, None).finished
    ensures Download(Requests(s, turns), e, asOf, None).items == Ordered(Eligible(s, e, asOf, None))
  {
    RequestsSeeStock(s, turns, e, asOf);
    StableDownloadIsExact(Requests(s, turns), e, asOf, Eligible(s, e, asOf, None));
  }

  /** And one request for every 50 visitors of the snapshot, at least one, always finishes it. */
  lemma DownloadTerminates(s: Server, turns: seq<Turn>, e: EventId, asOf: nat)
    requires Undisturbed(s, turns, e, asOf) && turns != [] && |Eligible(s, e, asOf, None)| <= 50 * |turns|
    ensures Download(Requests(s, turns), e, asOf, None).finished
  {
    RequestsSeeStock(s, turns, e, asOf);
    var stock := Eligible(s, e, asOf, None);
    assert Remaining(stock, None) == stock;
    StableDownloadTerminates(Requests(s, turns), e, asOf, None, stock);
  }
}
