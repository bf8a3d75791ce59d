/** The schedule benchmark's paged list checker (benches/stress_support/schedule.rs) against any replies. */
module ScheduleList {
  import opened Basics
  import RpcWire

  type Bytes = RpcWire.Bytes

  const CRON: string := "0 0 1 1 *"
  const PAGE_LIMIT: nat := 8
  const MAX_LIST_PAGES: nat := 9

  datatype Entry = Entry(route: string, cron: string, mode: nat, body: Bytes)

  /** How the entry list of a reply ends once its whole entries are decoded. */
  datatype Tail = Complete | Trailing | BadMarker | Truncated

  /** A list reply: a failed request or header, or its decoded fields. */
  datatype Reply = Broken | Page(version: nat, hasMore: nat, next: Option<string>, entries: seq<Entry>, tail: Tail)

  datatype ListError =
    | RequestFailed | BadVersion | BadEntries | PageTooLong | OutOfOrder | Duplicated | Changed | Missed
    | BadContinuation | ScanExceeded

  // ----- route order

  /** Lexicographic order on route text. */
  predicate Less(a: string, b: string) {
    b != "" && (a == "" || a[0] < b[0] || (a[0] == b[0] && Less(a[1..], b[1..])))
  }

  lemma {:induction false} LessIsTotal(a: string, b: string)
    ensures a == b || Less(a, b) || Less(b, a)
    decreases |a|
  {
    if a != "" && b != "" && a[0] == b[0] {
      LessIsTotal(a[1..], b[1..]);
      if a[1..] == b[1..] { assert a == [a[0]] + a[1..] && b == [b[0]] + b[1..]; }
    }
  }

  lemma {:induction false} LessIsAsymmetric(a: string, b: string)
    requires Less(a, b)
    ensures a != b && !Less(b, a)
    decreases |a|
  {
    if a != "" && a[0] == b[0] { LessIsAsymmetric(a[1..], b[1..]); }
  }

  lemma {:induction false} LessIsTransitive(a: string, b: string, c: string)
    requires Less(a, b) && Less(b, c)
    ensures Less(a, c)
    decreases |a|
  {
    if a != "" && a[0] == b[0] == c[0] { LessIsTransitive(a[1..], b[1..], c[1..]); }
  }

  // ----- the reference: what a listing should say about one route

  ghost predicate Increasing(listing: seq<Entry>) {
    forall i, j | 0 <= i < j < |listing| :: Less(listing[i].route, listing[j].route)
  }

  /** The entries of `listing` for one route, in order. */
  function Only(listing: seq<Entry>, route: string): seq<Entry> {
    if listing == [] then []
    else
      var last := listing[|listing| - 1];
      Only(listing[..|listing| - 1], route) + if last.route == route then [last] else []
  }

  /** What the driver wants to find: its own definition once, or nothing. */
  function Wanted(route: string, expected: Option<Bytes>): seq<Entry> {
    if expected.None? then [] else [Entry(route, CRON, 0, expected.value)]
  }

  /** Nothing wrong so far: in order, and the driver's route absent or as wanted. */
  ghost predicate Sane(route: string, expected: Option<Bytes>, listing: seq<Entry>) {
    Increasing(listing) && (Only(listing, route) == [] || Only(listing, route) == Wanted(route, expected))
  }

  function LastRoute(listing: seq<Entry>): Option<string> {
    if listing == [] then None else Some(listing[|listing| - 1].route)
  }

  lemma IncreasingAtEnd(listing: seq<Entry>, e: Entry)
    ensures Increasing(listing + [e]) <==>
            Increasing(listing) && (listing == [] || Less(LastRoute(listing).value, e.route))
  {
    var longer, n := listing + [e], |listing|;
    assert forall i | 0 <= i < n :: longer[i] == listing[i];
    assert longer[n] == e;
    if Increasing(listing) && n > 0 && Less(LastRoute(listing).value, e.route) {
      forall i | 0 <= i < n - 1 ensures Less(longer[i].route, e.route) {
        LessIsTransitive(listing[i].route, listing[n - 1].route, e.route);
      }
    }
    if Increasing(longer) {
      assert forall i, j | 0 <= i < j < n :: longer[i] == listing[i] && longer[j] == listing[j];
      if n > 0 { assert Less(longer[n - 1].route, longer[n].route); }
    }
  }

  lemma OnlyAtEnd(listing: seq<Entry>, e: Entry, route: string)
    ensures Only(listing + [e], route) == Only(listing, route) + if e.route == route then [e] else []
  {
  }

  /** One more entry keeps the listing sane exactly when the checker lets it pass. */
  lemma SaneAtEnd(route: string, expected: Option<Bytes>, listing: seq<Entry>, e: Entry)
    requires Sane(route, expected, listing)
    ensures Sane(route, expected, listing + [e]) <==>
            (&& (listing == [] || Less(LastRoute(listing).value, e.route))
             && (e.route == route ==> Only(listing, route) == [] && Wanted(route, expected) == [e]))
  {
    hide Less, Only, Increasing;
    IncreasingAtEnd(listing, e);
    OnlyAtEnd(listing, e, route);
    if e.route == route {
      assert |Only(listing + [e], route)| == |Only(listing, route)| + 1;
      if Only(listing, route) == [] { assert Only(listing + [e], route) == [e]; }
    }
  }

  lemma {:induction false} SanePrefix(route: string, expected: Option<Bytes>, listing: seq<Entry>, n: nat)
    requires n <= |listing| && Sane(route, expected, listing)
    ensures Sane(route, expected, listing[..n])
    decreases |listing|
  {
    if n < |listing| {
      var m := |listing| - 1;
      assert listing == listing[..m] + [listing[m]];
      IncreasingAtEnd(listing[..m], listing[m]);
      OnlyAtEnd(listing[..m], listing[m], route);
      assert listing[m].route == route ==> |Only(listing, route)| == |Only(listing[..m], route)| + 1;
      SanePrefix(route, expected, listing[..m], n);
      assert listing[..m][..n] == listing[..n];
    } else {
      assert listing[..n] == listing;
    }
  }

  // ----- what the checker walks

  /** The reply to request `k`; a request past the end of the replies fails. */
  function PageAt(replies: seq<Reply>, k: nat): Reply {
    if k < |replies| then replies[k] else Broken
  }

  /** The cursor sent with request `k`. */
  function Cursor(replies: seq<Reply>, k: nat): Option<string> {
    if k == 0 then None
    else var page := PageAt(replies, k - 1); if page.Page? then page.next else None
  }

  function EntriesOf(reply: Reply): seq<Entry> {
    if reply.Page? then reply.entries else []
  }

  /** Everything listed by the first `k` replies. */
  function Listing(replies: seq<Reply>, k: nat): seq<Entry> {
    if k == 0 then [] else Listing(replies, k - 1) + EntriesOf(PageAt(replies, k - 1))
  }

  predicate WellFormed(reply: Reply) {
    reply.Page? && reply.version == 1 && |reply.entries| <= PAGE_LIMIT && reply.tail.Complete?
  }

  predicate Continues(replies: seq<Reply>, k: nat) {
    var page := PageAt(replies, k);
    WellFormed(page) && page.hasMore == 1 && page.entries != [] && page.next.Some? && page.next != Cursor(replies, k)
  }

  predicate Ends(replies: seq<Reply>, k: nat) {
    var page := PageAt(replies, k);
    WellFormed(page) && page.hasMore == 0 && page.next.None?
  }

  /** The first `n` replies are fine and each asks for another. */
  ghost predicate Passes(route: string, expected: Option<Bytes>, replies: seq<Reply>, n: nat) {
    (forall k | 0 <= k < n :: Continues(replies, k)) && Sane(route, expected, Listing(replies, n))
  }

  /** After `n` continuing replies the list ends, is strictly increasing, and says of the route what is wanted. */
  ghost predicate Accepts(route: string, expected: Option<Bytes>, replies: seq<Reply>, n: nat) {
    && (forall k | 0 <= k < n :: Continues(replies, k))
    && Ends(replies, n)
    && Increasing(Listing(replies, n + 1))
    && Only(Listing(replies, n + 1), route) == Wanted(route, expected)
  }

  lemma {:induction false} ListingGrows(replies: seq<Reply>, n: nat, m: nat)
    requires n <= m
    ensures Listing(replies, n) <= Listing(replies, m)
    decreases m
  {
    if n < m { ListingGrows(replies, n, m - 1); }
  }

  lemma SaneBefore(route: string, expected: Option<Bytes>, replies: seq<Reply>, n: nat, m: nat)
    requires n <= m && Sane(route, expected, Listing(replies, m))
    ensures Sane(route, expected, Listing(replies, n))
  {
    ListingGrows(replies, n, m);
    SanePrefix(route, expected, Listing(replies, m), |Listing(replies, n)|);
    assert Listing(replies, m)[..|Listing(replies, n)|] == Listing(replies, n);
  }

  /** Where a walk goes wrong after `k` continuing replies: a bad reply, a bad listing, or neither an end nor more. */
  ghost predicate GoesWrong(route: string, expected: Option<Bytes>, replies: seq<Reply>, k: nat) {
    || !WellFormed(PageAt(replies, k))
    || !Sane(route, expected, Listing(replies, k + 1))
    || (!Continues(replies, k) && !Accepts(route, expected, replies, k))
  }

  lemma WrongIsNotPassed(route: string, expected: Option<Bytes>, replies: seq<Reply>, k: nat, n: nat)
    requires GoesWrong(route, expected, replies, k) && k < n
    ensures !Passes(route, expected, replies, n)
  {
    hide Less, Only, Increasing;
    if Passes(route, expected, replies, n) {
      assert Continues(replies, k);
      SaneBefore(route, expected, replies, k + 1, n);
    }
  }

  /** A reply that goes wrong after `k` continuing ones cannot be part of an accepted walk. */
  lemma WrongIsNotAccepted(route: string, expected: Option<Bytes>, replies: seq<Reply>, k: nat, n: nat)
    requires forall i | 0 <= i < k :: Continues(replies, i)
    requires GoesWrong(route, expected, replies, k)
    ensures !Accepts(route, expected, replies, n)
  {
    hide Less, Only, Increasing;
    if Accepts(route, expected, replies, n) {
      assert (n < k ==> Continues(replies, n)) && (k < n ==> Continues(replies, k));
      if n >= k { SaneBefore(route, expected, replies, k + 1, n + 1); }
    }
  }

  lemma NothingAccepted(route: string, expected: Option<Bytes>, replies: seq<Reply>, k: nat)
    requires k < MAX_LIST_PAGES && forall i | 0 <= i < k :: Continues(replies, i)
    requires GoesWrong(route, expected, replies, k)
    ensures forall n | n >= 0 :: !Accepts(route, expected, replies, n)
    ensures !Passes(route, expected, replies, MAX_LIST_PAGES)
  {
    forall n | n >= 0 ensures !Accepts(route, expected, replies, n) {
      WrongIsNotAccepted(route, expected, replies, k, n);
    }
    WrongIsNotPassed(route, expected, replies, k, MAX_LIST_PAGES);
  }

  // ----- the checker

  /** What the checker remembers of a sane listing: its last route and whether the definition was seen. */
  ghost predicate Remembers(route: string, expected: Option<Bytes>, listing: seq<Entry>, last: Option<string>,
      found: bool)
  {
    && Sane(route, expected, listing)
    && last == LastRoute(listing)
    && (found <==> Only(listing, route) != [])
  }

  lemma EmptyIsRemembered(route: string, expected: Option<Bytes>)
    ensures Remembers(route, expected, [], None, false)
  {
  }

  /** At the end of the list, having seen the definition or not is all that matters. */
  lemma EndVerdict(route: string, expected: Option<Bytes>, listing: seq<Entry>, last: Option<string>, found: bool)
    requires Remembers(route, expected, listing, last, found)
    ensures Increasing(listing)
    ensures Only(listing, route) == Wanted(route, expected) <==> found == expected.Some?
  {
  }

  lemma ListingNext(replies: seq<Reply>, k: nat)
    ensures Listing(replies, k + 1) == Listing(replies, k) + EntriesOf(PageAt(replies, k)) && Listing(replies, 0) == []
  {
  }

  lemma AcceptsMeans(route: string, expected: Option<Bytes>, replies: seq<Reply>, k: nat)
    requires forall i | 0 <= i < k :: Continues(replies, i)
    ensures Accepts(route, expected, replies, k) <==>
            Ends(replies, k) && Increasing(Listing(replies, k + 1))
              && Only(Listing(replies, k + 1), route) == Wanted(route, expected)
  {
  }

  lemma NineMoreIsNoEnd(route: string, expected: Option<Bytes>, replies: seq<Reply>)
    requires forall i | 0 <= i < MAX_LIST_PAGES :: Continues(replies, i)
    ensures forall n | 0 <= n < MAX_LIST_PAGES :: !Accepts(route, expected, replies, n)
  {
    forall n | 0 <= n < MAX_LIST_PAGES ensures !Accepts(route, expected, replies, n) { assert Continues(replies, n); }
  }

  /** What the checker tests of one entry. */
  predicate EntryPasses(route: string, expected: Option<Bytes>, e: Entry, last: Option<string>, found: bool) {
    && (last.None? || !(e.route == last.value || Less(e.route, last.value)))
    && (e.route == route ==> !found && expected.Some? && e.cron == CRON && e.mode == 0 && Some(e.body) == expected)
  }

  lemma EntryStep(route: string, expected: Option<Bytes>, seen: seq<Entry>, e: Entry, last: Option<string>, found: bool)
    requires Remembers(route, expected, seen, last, found)
    ensures EntryPasses(route, expected, e, last, found) <==> Sane(route, expected, seen + [e])
    ensures EntryPasses(route, expected, e, last, found) ==>
              Remembers(route, expected, seen + [e], Some(e.route), found || e.route == route)
  {
    SaneAtEnd(route, expected, seen, e);
    OnlyAtEnd(seen, e, route);
    if last.Some? {
      LessIsTotal(e.route, last.value);
      if Less(last.value, e.route) { LessIsAsymmetric(last.value, e.route); }
    }
  }

  /** The same for entry `n` of a page that follows `before`; a failing entry spoils the whole page. */
  lemma PageStep(route: string, expected: Option<Bytes>, before: seq<Entry>, entries: seq<Entry>, n: nat,
      last: Option<string>, found: bool)
    requires n < |entries| && Remembers(route, expected, before + entries[..n], last, found)
    ensures EntryPasses(route, expected, entries[n], last, found) ==>
              Remembers(route, expected, before + entries[..n + 1],
                        Some(entries[n].route), found || entries[n].route == route)
    ensures !EntryPasses(route, expected, entries[n], last, found) ==> !Sane(route, expected, before + entries)
  {
    hide Less, Only, Increasing;
    EntryStep(route, expected, before + entries[..n], entries[n], last, found);
    assert before + entries[..n + 1] == before + entries[..n] + [entries[n]];
    if Sane(route, expected, before + entries) {
      SanePrefix(route, expected, before + entries, |before| + n + 1);
      assert (before + entries)[..|before| + n + 1] == before + entries[..n + 1];
    }
  }

  method ScanEntries(route: string, expected: Option<Bytes>, entries: seq<Entry>, last0: Option<string>, found0: bool,
      ghost before: seq<Entry>)
    returns (problem: Option<ListError>, last: Option<string>, found: bool, count: nat)
    requires Remembers(route, expected, before, last0, found0)
    ensures problem.None? <==> |entries| <= PAGE_LIMIT && Sane(route, expected, before + entries)
    ensures problem.None? ==> Remembers(route, expected, before + entries, last, found) && count == |entries|
    ensures problem != Some(ScanExceeded)
  {
    last, found, count := last0, found0, 0;
    assert before + entries[..0] == before;
    while count < |entries|
      invariant count <= |entries| && count <= PAGE_LIMIT
      invariant Remembers(route, expected, before + entries[..count], last, found)
    {
      if count + 1 > PAGE_LIMIT {
        return Some(PageTooLong), last, found, count;
      }
      var e := entries[count];
      PageStep(route, expected, before, entries, count, last, found);
      if last.Some? && (e.route == last.value || Less(e.route, last.value)) {
        return Some(OutOfOrder), last, found, count;
      }
      last, count := Some(e.route), count + 1;
      if e.route == route {
        if found || expected.None? {
          return Some(Duplicated), last, found, count;
        }
        if e.cron != CRON || e.mode != 0 || Some(e.body) != expected {
          return Some(Changed), last, found, count;
        }
        found := true;
      }
    }
    assert entries[..count] == entries;
    return None, last, found, count;
  }

  /**
   The check succeeds exactly when within nine replies the list ends, its routes strictly increase across all
   pages, and the driver's route occurs once with the expected definition, or not at all when none is expected.
   It gives up on the ninth reply exactly when all nine are fine and ask for more.
   */
  method CheckDefinition(route: string, expected: Option<Bytes>, replies: seq<Reply>)
    returns (outcome: Result<(), ListError>, requests: nat)
    ensures requests <= MAX_LIST_PAGES
    ensures outcome.Ok? <==> exists n :: 0 <= n < MAX_LIST_PAGES && Accepts(route, expected, replies, n)
    ensures outcome.Ok? ==> requests > 0 && Accepts(route, expected, replies, requests - 1)
    ensures outcome == Err(ScanExceeded) <==> Passes(route, expected, replies, MAX_LIST_PAGES)
  {
    hide Only, Increasing, Sane, Listing, Accepts;
    var cursor: Option<string>, last: Option<string>, found := None, None, false;
    EmptyIsRemembered(route, expected);
    ListingNext(replies, 0);
    var k := 0;
    while k < MAX_LIST_PAGES
      invariant k <= MAX_LIST_PAGES && cursor == Cursor(replies, k)
      invariant forall i | 0 <= i < k :: Continues(replies, i)
      invariant Remembers(route, expected, Listing(replies, k), last, found)
    {
      ListingNext(replies, k);
      AcceptsMeans(route, expected, replies, k);
      var reply := PageAt(replies, k);
      if reply.Broken? {
        NothingAccepted(route, expected, replies, k);
        return Err(RequestFailed), k + 1;
      }
      if reply.version != 1 {
        NothingAccepted(route, expected, replies, k);
        return Err(BadVersion), k + 1;
      }
      var problem, last', found', count :=
        ScanEntries(route, expected, reply.entries, last, found, Listing(replies, k));
      if problem.Some? {
        NothingAccepted(route, expected, replies, k);
        return Err(problem.value), k + 1;
      }
      last, found := last', found';
      if !reply.tail.Complete? {
        NothingAccepted(route, expected, replies, k);
        return Err(BadEntries), k + 1;
      }
      EndVerdict(route, expected, Listing(replies, k + 1), last, found);
      if reply.hasMore == 0 {
        if reply.next.Some? || found != expected.Some? {
          NothingAccepted(route, expected, replies, k);
          return Err(Missed), k + 1;
        }
        assert Accepts(route, expected, replies, k);
        assert !Continues(replies, k);
        return Ok(()), k + 1;
      }
      if reply.hasMore == 1 && count > 0 && reply.next.Some? && reply.next != cursor {
        cursor := reply.next;
      } else {
        NothingAccepted(route, expected, replies, k);
        return Err(BadContinuation), k + 1;
      }
      k := k + 1;
    }
    NineMoreIsNoEnd(route, expected, replies);
    return Err(ScanExceeded), k;
  }

  // ----- against the server's own paging (src/domains/schedule/actor/claim_and_ack.rs)

  /** How many of the sorted definitions come no later than `route`. */
  function NotAfter(defs: seq<Entry>, route: string): (n: nat)
    ensures n <= |defs|
  {
    if defs == [] || Less(route, defs[0].route) then 0 else 1 + NotAfter(defs[1..], route)
  }

  /** Where a cursor continues: after the route it names in this family, and otherwise from the start. */
  function StartOf(prefix: string, defs: seq<Entry>, cursor: Option<string>): (start: nat)
    ensures start <= |defs|
  {
    if cursor.Some? && prefix < cursor.value then NotAfter(defs, cursor.value[|prefix|..]) else 0
  }

  // ----- how much of a page fits a response

  function CostOf(entries: seq<Entry>, cost: Entry -> nat): nat {
    if entries == [] then 0 else CostOf(entries[..|entries| - 1], cost) + cost(entries[|entries| - 1])
  }

  /** How many of the entries fit the room, taken in order. */
  function Fit(entries: seq<Entry>, cost: Entry -> nat, room: nat): (n: nat)
    ensures n <= |entries|
  {
    if entries == [] || cost(entries[0]) > room then 0 else 1 + Fit(entries[1..], cost, room - cost(entries[0]))
  }

  lemma {:induction false} CostOfConcat(a: seq<Entry>, b: seq<Entry>, cost: Entry -> nat)
    ensures CostOf(a + b, cost) == CostOf(a, cost) + CostOf(b, cost)
    decreases |b|
  {
    if b == [] {
      assert a + b == a;
    } else {
      var n := |b| - 1;
      CostOfConcat(a, b[..n], cost);
      assert (a + b)[..|a + b| - 1] == a + b[..n];
    }
  }

  /** It is the longest run from the front whose cost stays within the room. */
  lemma {:induction false} FitIsLongest(entries: seq<Entry>, cost: Entry -> nat, room: nat)
    ensures var n := Fit(entries, cost, room);
            CostOf(entries[..n], cost) <= room && (n < |entries| ==> CostOf(entries[..n + 1], cost) > room)
    decreases |entries|
  {
    var n := Fit(entries, cost, room);
    if entries != [] {
      assert entries[..1] == [entries[0]] && CostOf(entries[..1], cost) == cost(entries[0]);
      if n > 0 {
        var rest := entries[1..];
        FitIsLongest(rest, cost, room - cost(entries[0]));
        CostOfConcat(entries[..1], rest[..n - 1], cost);
        assert entries[..n] == entries[..1] + rest[..n - 1];
        if n < |entries| {
          CostOfConcat(entries[..1], rest[..n], cost);
          assert entries[..n + 1] == entries[..1] + rest[..n];
        }
      }
    }
  }

  /** The server's page length: the entries that fit, or the route of a first entry that fits no response. */
  method BoundedPageLen(entries: seq<Entry>, cost: Entry -> nat, ceiling: nat) returns (fitted: Result<nat, string>)
    requires entries != [] && ceiling < U64_MAX
    ensures fitted.Err? <==> cost(entries[0]) > ceiling
    ensures fitted.Err? ==> fitted.error == entries[0].route
    ensures fitted.Ok? ==> fitted.value == Fit(entries, cost, ceiling) > 0
  {
    var used: nat, n: nat := 0, 0;
    while n < |entries|
      invariant n <= |entries| && used <= ceiling && (n > 0 ==> cost(entries[0]) <= ceiling)
      invariant Fit(entries, cost, ceiling) == n + Fit(entries[n..], cost, ceiling - used)
    {
      var entry := entries[n];
      assert entries[n..][0] == entry && entries[n..][1..] == entries[n + 1..];
      if cost(entry) > ceiling {
        if n > 0 {
          break;
        }
        return Err(entry.route);
      }
      var next := Clamp64(used + cost(entry));
      if next > ceiling && n > 0 {
        break;
      }
      used, n := next, n + 1;
    }
    return Ok(n);
  }

  // ----- the pages it makes

  /** A server's unchanging list of definitions, and what each costs in a response of limited size. */
  datatype Catalog = Catalog(prefix: string, defs: seq<Entry>, cost: Entry -> nat, ceiling: nat)

  /** The definitions a page starting there may hold. */
  function Window(defs: seq<Entry>, start: nat): seq<Entry> {
    if start >= |defs| then []
    else if |defs| - start > PAGE_LIMIT then defs[start..start + PAGE_LIMIT]
    else defs[start..]
  }

  function PageLength(c: Catalog, start: nat): (n: nat)
    ensures n <= PAGE_LIMIT && (start <= |c.defs| ==> start + n <= |c.defs|)
  {
    Fit(Window(c.defs, start), c.cost, c.ceiling)
  }

  /**
   One page: the definitions that fit, and a continuation naming the last of them while more remain; an error if the
   first fits none.
   */
  function ServedPage(c: Catalog, cursor: Option<string>): Reply {
    var start := StartOf(c.prefix, c.defs, cursor);
    var end := start + PageLength(c, start);
    if start < |c.defs| && end == start then Broken
    else if end < |c.defs| then Page(1, 1, Some(c.prefix + c.defs[end - 1].route), c.defs[start..end], Complete)
    else Page(1, 0, None, c.defs[start..], Complete)
  }

  ghost predicate ServedAt(replies: seq<Reply>, c: Catalog, k: nat) {
    PageAt(replies, k) == ServedPage(c, Cursor(replies, k))
  }

  /** Replies of a server that pages an unchanging sorted list of definitions. */
  ghost predicate Served(replies: seq<Reply>, c: Catalog) {
    && Increasing(c.defs) && (forall i | 0 <= i < |c.defs| :: c.defs[i].route != "")
    && forall k | 0 <= k < MAX_LIST_PAGES :: ServedAt(replies, c, k)
  }

  lemma {:induction false} NotAfterOwnRoute(defs: seq<Entry>, i: nat)
    requires Increasing(defs) && i < |defs|
    ensures NotAfter(defs, defs[i].route) == i + 1
    decreases i
  {
    if i == 0 {
      if Less(defs[0].route, defs[0].route) { LessIsAsymmetric(defs[0].route, defs[0].route); }
      assert |defs| > 1 ==> Less(defs[0].route, defs[1].route) && defs[1..][0] == defs[1];
    } else {
      LessIsAsymmetric(defs[0].route, defs[i].route);
      assert forall a, b | 0 <= a < b < |defs[1..]| :: defs[1..][a] == defs[a + 1] && defs[1..][b] == defs[b + 1];
      NotAfterOwnRoute(defs[1..], i - 1);
    }
  }

  /** A continuation really continues: it names the last definition sent, and the next page starts after it. */
  lemma ContinuationStart(prefix: string, defs: seq<Entry>, i: nat)
    requires Increasing(defs) && i < |defs| && defs[i].route != ""
    ensures StartOf(prefix, defs, Some(prefix + defs[i].route)) == i + 1
  {
    var cursor := prefix + defs[i].route;
    assert prefix < cursor && cursor[|prefix|..] == defs[i].route;
    NotAfterOwnRoute(defs, i);
  }

  lemma ContinuationsDiffer(prefix: string, defs: seq<Entry>, i: nat, j: nat)
    requires Increasing(defs) && i < j < |defs|
    ensures prefix + defs[i].route != prefix + defs[j].route
  {
    LessIsAsymmetric(defs[i].route, defs[j].route);
    assert (prefix + defs[i].route)[|prefix|..] == defs[i].route;
    assert (prefix + defs[j].route)[|prefix|..] == defs[j].route;
  }

  /** Where the k-th page starts. */
  function PageStart(c: Catalog, k: nat): (start: nat)
    ensures start <= |c.defs| && start <= k * PAGE_LIMIT
  {
    if k == 0 then 0 else PageStart(c, k - 1) + PageLength(c, PageStart(c, k - 1))
  }

  lemma {:induction false} PagesStayPut(c: Catalog, k: nat, j: nat)
    requires k <= j && PageStart(c, k + 1) == PageStart(c, k)
    ensures PageStart(c, j) == PageStart(c, k)
    decreases j
  {
    if k < j { PagesStayPut(c, k, j - 1); }
  }

  /** Page k holds some definitions and leaves some. */
  predicate MoreAfter(c: Catalog, k: nat) {
    PageStart(c, k) < PageStart(c, k + 1) < |c.defs|
  }

  /** Request `k` asks for the definitions from the k-th page start on. */
  ghost predicate AsksFrom(replies: seq<Reply>, c: Catalog, k: nat) {
    var start := PageStart(c, k);
    StartOf(c.prefix, c.defs, Cursor(replies, k)) == start
    && (k > 0 ==> start > 0 && Cursor(replies, k) == Some(c.prefix + c.defs[start - 1].route))
  }

  lemma ServedStep(replies: seq<Reply>, c: Catalog, k: nat)
    requires Served(replies, c) && k < MAX_LIST_PAGES && AsksFrom(replies, c, k) && MoreAfter(c, k)
    ensures Continues(replies, k) && AsksFrom(replies, c, k + 1)
    ensures PageStart(c, k) <= PageStart(c, k + 1)
            && EntriesOf(PageAt(replies, k)) == c.defs[PageStart(c, k)..PageStart(c, k + 1)]
  {
    hide Less, Fit, Window, Increasing;
    var start, end := PageStart(c, k), PageStart(c, k + 1);
    assert ServedAt(replies, c, k);
    assert PageAt(replies, k) == Page(1, 1, Some(c.prefix + c.defs[end - 1].route), c.defs[start..end], Complete);
    ContinuationStart(c.prefix, c.defs, end - 1);
    if k > 0 { ContinuationsDiffer(c.prefix, c.defs, start - 1, end - 1); }
  }

  lemma FirstRequest(replies: seq<Reply>, c: Catalog)
    ensures PageStart(c, 0) == 0 && AsksFrom(replies, c, 0)
  {
  }

  /**
   While every page leaves some definitions, request k starts where page k does, and everything before it was listed.
   */
  lemma {:induction false} ServedWalk(replies: seq<Reply>, c: Catalog, k: nat)
    requires Served(replies, c) && k <= MAX_LIST_PAGES && forall i | 0 <= i < k :: MoreAfter(c, i)
    ensures forall i | 0 <= i < k :: Continues(replies, i)
    ensures AsksFrom(replies, c, k) && Listing(replies, k) == c.defs[..PageStart(c, k)]
    decreases k
  {
    hide Served, Continues, MoreAfter, PageStart, AsksFrom;
    if k == 0 {
      FirstRequest(replies, c);
    } else {
      ServedWalk(replies, c, k - 1);
      ServedStep(replies, c, k - 1);
      var start, end := PageStart(c, k - 1), PageStart(c, k);
      assert c.defs[..start] + c.defs[start..end] == c.defs[..end];
    }
  }

  /** A page that leaves nothing ends the list, and one that holds nothing although something is left is an error. */
  lemma LastPage(replies: seq<Reply>, c: Catalog, k: nat)
    requires Served(replies, c) && k < MAX_LIST_PAGES && AsksFrom(replies, c, k)
             && Listing(replies, k) == c.defs[..PageStart(c, k)]
    requires !MoreAfter(c, k)
    ensures PageStart(c, k + 1) == |c.defs| ==> Ends(replies, k) && Listing(replies, k + 1) == c.defs
    ensures PageStart(c, k + 1) < |c.defs| ==> PageAt(replies, k) == Broken
  {
    hide Less, Fit, Window, Increasing;
    var start := PageStart(c, k);
    assert ServedAt(replies, c, k);
    assert c.defs[..start] + c.defs[start..] == c.defs;
  }

  /**
   Against a server that pages a sorted list, the checker accepts exactly when nine pages reach the end of the list
   and it says of the route what is wanted; it gives up exactly when nine pages were sent and did not.
   */
  lemma ServedListIsDecided(route: string, expected: Option<Bytes>, replies: seq<Reply>, c: Catalog)
    requires Served(replies, c)
    ensures (exists n :: 0 <= n < MAX_LIST_PAGES && Accepts(route, expected, replies, n)) <==>
            PageStart(c, MAX_LIST_PAGES) == |c.defs| && Only(c.defs, route) == Wanted(route, expected)
    ensures Passes(route, expected, replies, MAX_LIST_PAGES) <==>
            MoreAfter(c, MAX_LIST_PAGES - 1) && Sane(route, expected, c.defs[..PageStart(c, MAX_LIST_PAGES)])
  {
    hide Less, Only, Increasing, PageLength, ServedAt, PageStart;
    var k := 0;
    while k < MAX_LIST_PAGES && MoreAfter(c, k)
      invariant k <= MAX_LIST_PAGES && forall i | 0 <= i < k :: MoreAfter(c, i)
    {
      k := k + 1;
    }
    ServedWalk(replies, c, k);
    if k < MAX_LIST_PAGES {
      LastPage(replies, c, k);
      EndOfPages(c, k);
      SortedSoFar(replies, c);
      forall n | 0 <= n < MAX_LIST_PAGES && n != k ensures !Accepts(route, expected, replies, n) {
        assert n < k ==> Continues(replies, n);
        assert !Continues(replies, k);
      }
      assert Accepts(route, expected, replies, k) <==>
          PageStart(c, k + 1) == |c.defs| && Only(c.defs, route) == Wanted(route, expected);
      assert !Continues(replies, k);
    } else {
      assert MoreAfter(c, MAX_LIST_PAGES - 1);
      forall n | 0 <= n < MAX_LIST_PAGES ensures !Accepts(route, expected, replies, n) { assert Continues(replies, n); }
    }
  }

  lemma SortedSoFar(replies: seq<Reply>, c: Catalog)
    requires Served(replies, c)
    ensures Increasing(c.defs)
  {
  }

  lemma PagesGrow(c: Catalog, k: nat)
    ensures PageStart(c, k) <= PageStart(c, k + 1)
  {
  }

  lemma NothingAfterTheEnd(c: Catalog, k: nat)
    requires PageStart(c, k) == |c.defs|
    ensures PageStart(c, k + 1) == |c.defs|
  {
  }

  /** After a page that does not leave definitions behind it, later pages change nothing. */
  lemma EndOfPages(c: Catalog, k: nat)
    requires k < MAX_LIST_PAGES && !MoreAfter(c, k)
    ensures PageStart(c, MAX_LIST_PAGES) == |c.defs| <==> PageStart(c, k + 1) == |c.defs|
    ensures !MoreAfter(c, MAX_LIST_PAGES - 1)
  {
    hide PageStart;
    PagesGrow(c, k);
    if PageStart(c, k + 1) == PageStart(c, k) {
      PagesStayPut(c, k, MAX_LIST_PAGES);
      PagesStayPut(c, k, MAX_LIST_PAGES - 1);
    } else {
      NothingAfterTheEnd(c, k + 1);
      PagesStayPut(c, k + 1, MAX_LIST_PAGES);
      if k + 1 < MAX_LIST_PAGES { PagesStayPut(c, k + 1, MAX_LIST_PAGES - 1); }
    }
  }

  /** When eight definitions always fit, nine pages reach the end of exactly the lists of at most 72. */
  lemma FullPagesReach(c: Catalog, k: nat)
    requires forall start :: PageLength(c, start) == |Window(c.defs, start)|
    ensures PageStart(c, k) == if |c.defs| <= k * PAGE_LIMIT then |c.defs| else k * PAGE_LIMIT
    decreases k
  {
    if k > 0 {
      FullPagesReach(c, k - 1);
      assert PageLength(c, PageStart(c, k - 1)) == |Window(c.defs, PageStart(c, k - 1))|;
    }
  }

  lemma FullPagesDecide72(route: string, expected: Option<Bytes>, replies: seq<Reply>, c: Catalog)
    requires Served(replies, c) && forall start :: PageLength(c, start) == |Window(c.defs, start)|
    ensures (exists n :: 0 <= n < MAX_LIST_PAGES && Accepts(route, expected, replies, n)) <==>
            |c.defs| <= MAX_LIST_PAGES * PAGE_LIMIT && Only(c.defs, route) == Wanted(route, expected)
  {
    hide Accepts, Served, Only;
    FullPagesReach(c, MAX_LIST_PAGES);
    ServedListIsDecided(route, expected, replies, c);
  }

  /** Whatever the definitions cost, each page brings at least one as long as each fits a response at all. */
  lemma {:induction false} EveryPageAdvances(c: Catalog, k: nat)
    requires forall i | 0 <= i < |c.defs| :: c.cost(c.defs[i]) <= c.ceiling
    ensures PageStart(c, k) >= if |c.defs| <= k then |c.defs| else k
  {
    if k > 0 { EveryPageAdvances(c, k - 1); }
  }
}
