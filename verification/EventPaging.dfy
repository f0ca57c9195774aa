/**
 Paging where the cursor is taken from the first row that was left out and the next query
 starts strictly after it: what a client visits that follows such cursors to the end. First
 for any table and condition, then for the event log.
 */
module EventPaging {
  import opened Wrappers
  import opened Text
  import opened Remainders
  import opened Keyset
  import opened Events
  import Timestamps

  // ---------------------------------------------------------------- the scheme

  /**
   A paged query: `cond(cursor)` is its condition, `text(row)` the cursor of a row. With
   the cursor of a row it selects what is listed strictly after that row.
   */
  datatype Paging<!T> = Paging(rows: seq<T>, key: T -> RowKey, text: T -> string, cond: string -> T -> bool)

  ghost predicate Sound<T>(g: Paging<T>) {
    && DistinctKeys(g.rows, g.key)
    && (forall r :: r in g.rows ==> g.text(r) != "")
    && (forall r, x :: r in g.rows && x in g.rows ==>
          g.cond(g.text(r))(x) == (g.cond("")(x) && Before(g.key(r), g.key(x))))
  }

  function List<T>(g: Paging<T>, cursor: string): seq<T> {
    Keyset.Query(g.rows, g.cond(cursor), g.key)
  }

  /** A cursor as the pages hand them out: none, or that of a listed row. */
  ghost predicate Handed<T>(g: Paging<T>, cursor: string) {
    cursor == "" || exists j :: 0 <= j < |List(g, "")| && cursor == g.text(List(g, "")[j])
  }

  function Next<T>(g: Paging<T>, n: nat, cursor: string): string {
    if |List(g, cursor)| <= n then "" else g.text(List(g, cursor)[n])
  }

  lemma ListAfter<T>(g: Paging<T>, j: nat)
    requires Sound(g) && j < |List(g, "")|
    ensures g.text(List(g, "")[j]) != ""
    ensures List(g, g.text(List(g, "")[j])) == List(g, "")[j + 1..]
  {
    var row := List(g, "")[j];
    ListingMember(g.rows, g.cond(""), g.key, row);
    forall r | r in g.rows ensures g.cond(g.text(row))(r) == (g.cond("")(r) && Before(g.key(row), g.key(r))) {
    }
    ListingAfter(g.rows, g.key, g.cond(""), j, g.cond(g.text(row)));
  }

  lemma ListIsSuffix<T>(g: Paging<T>, cursor: string) returns (i: nat)
    requires Sound(g) && Handed(g, cursor)
    ensures i <= |List(g, "")| && List(g, cursor) == List(g, "")[i..]
  {
    if cursor == "" {
      i := 0;
    } else {
      var j :| 0 <= j < |List(g, "")| && cursor == g.text(List(g, "")[j]);
      ListAfter(g, j);
      i := j + 1;
    }
  }

  /** The page after the next one starts one row further than the page ended. */
  lemma NextSkipsOne<T>(g: Paging<T>, n: nat, cursor: string)
    requires Sound(g) && Handed(g, cursor)
    ensures Next(g, n, cursor) == "" <==> |List(g, cursor)| <= n
    ensures Next(g, n, cursor) != "" ==>
      Handed(g, Next(g, n, cursor)) && List(g, Next(g, n, cursor)) == List(g, cursor)[n + 1..]
  {
    var all, rest := List(g, ""), List(g, cursor);
    var i := ListIsSuffix(g, cursor);
    if |rest| > n {
      SuffixParts(all, i, rest, n);
      ListAfter(g, i + n);
    }
  }

  /** Follow the cursors, `n` rows a page, until a page comes without one. */
  ghost function Walk<T>(g: Paging<T>, n: nat, cursor: string): seq<T>
    requires Sound(g) && Handed(g, cursor)
    decreases |List(g, cursor)|
  {
    NextSkipsOne(g, n, cursor);
    Take(List(g, cursor), n) + if Next(g, n, cursor) == "" then [] else Walk(g, n, Next(g, n, cursor))
  }

  /** Every (n+1)-th element left out. */
  function SkipEvery<T>(s: seq<T>, n: nat): seq<T> {
    if |s| <= n then s else s[..n] + SkipEvery(s[n + 1..], n)
  }

  lemma {:induction false} WalkSkips<T>(g: Paging<T>, n: nat, cursor: string)
    requires Sound(g) && Handed(g, cursor)
    ensures Walk(g, n, cursor) == SkipEvery(List(g, cursor), n)
    decreases |List(g, cursor)|
  {
    NextSkipsOne(g, n, cursor);
    if Next(g, n, cursor) != "" {
      WalkSkips(g, n, Next(g, n, cursor));
    }
  }

  // ---------------------------------------------------------------- positions

  /** `i` is not the last position of its group of n + 1. */
  predicate Visited(i: nat, n: nat) { i % (n + 1) != n }

  lemma VisitedInFirstGroup(i: nat, n: nat)
    requires i <= n
    ensures Visited(i, n) <==> i < n
  {
    SmallMod(i, n + 1);
  }

  lemma VisitedShift(i: nat, n: nat)
    ensures Visited(i + n + 1, n) <==> Visited(i, n)
  {
    ModShift(i, n + 1);
  }

  lemma {:induction false} SkipEveryMembers<T>(s: seq<T>, n: nat, x: T)
    ensures x in SkipEvery(s, n) <==> exists i :: 0 <= i < |s| && s[i] == x && Visited(i, n)
    decreases |s|
  {
    forall i | 0 <= i < |s| && i <= n ensures Visited(i, n) <==> i < n {
      VisitedInFirstGroup(i, n);
    }
    if |s| > n {
      var t := s[n + 1..];
      SkipEveryMembers(t, n, x);
      forall i | 0 <= i < |t| ensures Visited(i + n + 1, n) <==> Visited(i, n) {
        VisitedShift(i, n);
      }
      assert forall i :: 0 <= i < |t| ==> t[i] == s[i + n + 1];
      FirstOrRest(s, n, x);
    }
  }

  lemma FirstOrRest<T>(s: seq<T>, n: nat, x: T)
    requires |s| > n && !Visited(n, n)
    requires forall i :: 0 <= i < n ==> Visited(i, n)
    requires forall i :: 0 <= i < |s| - n - 1 ==> (Visited(i + n + 1, n) <==> Visited(i, n))
    ensures (exists i :: 0 <= i < |s| && s[i] == x && Visited(i, n)) <==>
            x in s[..n] || exists i :: 0 <= i < |s[n + 1..]| && s[n + 1..][i] == x && Visited(i, n)
  {
    var t := s[n + 1..];
    if i :| 0 <= i < |s| && s[i] == x && Visited(i, n) {
      if i < n {
        assert s[..n][i] == x;
      } else {
        assert i != n;
        var k := i - n - 1;
        assert t[k] == x && Visited(k + n + 1, n);
      }
    }
    if i :| 0 <= i < |t| && t[i] == x && Visited(i, n) {
      assert s[i + n + 1] == x && Visited(i + n + 1, n);
    }
  }

  lemma {:induction false} SkipEverySorted<T>(s: seq<T>, n: nat, key: T -> RowKey)
    requires Sorted(s, key)
    ensures Sorted(SkipEvery(s, n), key)
    decreases |s|
  {
    if |s| > n {
      var a, b := s[..n], SkipEvery(s[n + 1..], n);
      SkipEverySorted(s[n + 1..], n, key);
      forall i, j | 0 <= i < |a| && 0 <= j < |b| ensures Before(key(a[i]), key(b[j])) {
        SkipEveryMembers(s[n + 1..], n, b[j]);
        var k :| 0 <= k < |s[n + 1..]| && s[n + 1..][k] == b[j];
        assert s[n + 1 + k] == b[j];
      }
    }
  }

  /**
   The walk ends, repeats nothing, keeps the order, and visits exactly the positions i of the
   listing with i mod (n + 1) != n.
   */
  lemma WalkVisitsExactly<T>(g: Paging<T>, n: nat)
    requires Sound(g)
    ensures Sorted(Walk(g, n, ""), g.key)
    ensures forall x :: x in Walk(g, n, "") <==>
              exists i :: 0 <= i < |List(g, "")| && List(g, "")[i] == x && Visited(i, n)
  {
    WalkSkips(g, n, "");
    ListingSorted(g.rows, g.cond(""), g.key);
    SkipEverySorted(List(g, ""), n, g.key);
    forall x
      ensures x in Walk(g, n, "") <==> exists i :: 0 <= i < |List(g, "")| && List(g, "")[i] == x && Visited(i, n)
    {
      SkipEveryMembers(List(g, ""), n, x);
    }
  }

  /** The walk is complete exactly when the listing fits on one page. */
  lemma WalkIsCompleteIff<T>(g: Paging<T>, n: nat)
    requires Sound(g)
    ensures (forall x :: x in List(g, "") ==> x in Walk(g, n, "")) <==> |List(g, "")| <= n
  {
    var all := List(g, "");
    WalkSkips(g, n, "");
    ListingSorted(g.rows, g.cond(""), g.key);
    if |all| > n {
      VisitedInFirstGroup(n, n);
      SkipEveryMembers(all, n, all[n]);
      forall i | 0 <= i < |all| && all[i] == all[n] ensures i == n {
        BeforeIsStrict(g.key(all[n]), g.key(all[n]), g.key(all[n]));
      }
      assert all[n] in all;
    }
  }

  /** The walk visits exactly these positions, in order, and is complete exactly when one page holds everything. */
  ghost predicate SkipsOneAPage<T(!new)>(walk: seq<T>, all: seq<T>, n: nat, key: T -> RowKey) {
    && Sorted(walk, key)
    && (forall x :: x in walk <==> exists i :: 0 <= i < |all| && all[i] == x && Visited(i, n))
    && ((forall x :: x in all ==> x in walk) <==> |all| <= n)
  }

  lemma WalkSkipsOneAPage<T(!new)>(g: Paging<T>, n: nat, walk: seq<T>, all: seq<T>, key: T -> RowKey)
    requires Sound(g) && walk == Walk(g, n, "") && all == List(g, "") && key == g.key
    ensures SkipsOneAPage(walk, all, n, key)
  {
    WalkVisitsExactly(g, n);
    WalkIsCompleteIff(g, n);
  }

  // ---------------------------------------------------------------- the event log

  /** Identifiers are unique and survive in a cursor, as UUIDs do, and timestamps are well formed. */
  ghost predicate SoundTable(table: seq<Event>) {
    && (forall i, j :: 0 <= i < j < |table| ==> table[i].id != table[j].id)
    && (forall e :: e in table ==> CursorSafe(e.id) && Timestamps.Valid(e.at))
  }

  /** ListProjectEvents as a paged query: the filter of the request with changing cursors. */
  function EventLog(table: seq<Event>, project: string, f: Filter, l: Lowering): Paging<Event> {
    Paging(table, KeyOf, (e: Event) => EncodeCursor(e.at, e.id), cursor => Describes(project, f.(cursor := cursor), l))
  }

  /** What one call returns is one page of the scheme. */
  lemma PageIsStep(table: seq<Event>, project: string, f: Filter, l: Lowering, cursor: string)
    ensures var g, n := EventLog(table, project, f, l), PageSize(f.limit);
            PageFrom(Listing(table, project, f.(cursor := cursor), l), n) ==
              Page(Take(List(g, cursor), n), Next(g, n, cursor))
  {
  }

  /** With the cursor of an event, the filter describes what comes strictly after that event. */
  lemma CursorSelectsAfter(project: string, f: Filter, l: Lowering, row: Event, e: Event)
    requires CursorSafe(row.id) && Timestamps.Valid(row.at)
    ensures EncodeCursor(row.at, row.id) != ""
    ensures Matches(project, f.(cursor := EncodeCursor(row.at, row.id)), l, e) <==>
            Matches(project, f.(cursor := ""), l, e) && Before(KeyOf(row), KeyOf(e))
  {
    CursorReadsBack(row);
    assert CursorOf("") == None by {
      assert Blank("");
    }
  }

  lemma CursorReadsBack(row: Event)
    requires CursorSafe(row.id) && Timestamps.Valid(row.at)
    ensures EncodeCursor(row.at, row.id) != ""
    ensures CursorOf(EncodeCursor(row.at, row.id)) == Some(KeyOf(row))
  {
    CursorRoundTripIff(row.at, row.id);
    CursorNotBlank(row.at, row.id);
  }

  lemma CursorNotBlank(at: Stamp, id: string)
    requires id != ""
    ensures !Blank(EncodeCursor(at, id))
  {
    Timestamps.HeadLayout(at, Timestamps.Tail(at));
    DashIsNotBlank(EncodeCursor(at, id));
  }

  lemma DashIsNotBlank(text: string)
    requires |text| > 4 && text[4] == '-'
    ensures !Blank(text)
  {
    TrimShape(text, IsSpace);
  }

  lemma EventLogIsSound(table: seq<Event>, project: string, f: Filter, l: Lowering)
    requires SoundTable(table)
    ensures Sound(EventLog(table, project, f, l))
  {
    var g := EventLog(table, project, f, l);
    assert forall i :: 0 <= i < |table| ==> g.key(table[i]).id == table[i].id;
    forall r, x | r in table && x in table
      ensures g.text(r) != "" && g.cond(g.text(r))(x) == (g.cond("")(x) && Before(g.key(r), g.key(x)))
    {
      CursorSelectsAfter(project, f, l, r, x);
    }
  }

  /** The page that ListProjectEvents returns for the filter with this cursor. */
  function PageAt(table: seq<Event>, project: string, f: Filter, l: Lowering, cursor: string): Page {
    PageFrom(Listing(table, project, f.(cursor := cursor), l), PageSize(f.limit))
  }

  /** What a client visits that follows the cursors of the pages from `cursor` to the end. */
  ghost function WalkFrom(table: seq<Event>, project: string, f: Filter, l: Lowering, cursor: string): seq<Event>
    requires SoundTable(table) && Handed(EventLog(table, project, f, l), cursor)
    decreases |Listing(table, project, f.(cursor := cursor), l)|
  {
    PageLeadsOn(table, project, f, l, cursor);
    var page := PageAt(table, project, f, l, cursor);
    page.events + if page.next == "" then [] else WalkFrom(table, project, f, l, page.next)
  }

  lemma PageLeadsOn(table: seq<Event>, project: string, f: Filter, l: Lowering, cursor: string)
    requires SoundTable(table) && Handed(EventLog(table, project, f, l), cursor)
    ensures var next := PageAt(table, project, f, l, cursor).next;
            next != "" ==>
              && Handed(EventLog(table, project, f, l), next)
              && |Listing(table, project, f.(cursor := next), l)| < |Listing(table, project, f.(cursor := cursor), l)|
  {
    EventLogIsSound(table, project, f, l);
    PageIsStep(table, project, f, l, cursor);
    NextSkipsOne(EventLog(table, project, f, l), PageSize(f.limit), cursor);
  }

  /** Following the returned pages is walking the scheme. */
  lemma {:induction false} WalkFromIsWalk(table: seq<Event>, project: string, f: Filter, l: Lowering, cursor: string)
    requires SoundTable(table) && Handed(EventLog(table, project, f, l), cursor)
    requires Sound(EventLog(table, project, f, l))
    ensures WalkFrom(table, project, f, l, cursor) == Walk(EventLog(table, project, f, l), PageSize(f.limit), cursor)
    decreases |Listing(table, project, f.(cursor := cursor), l)|
  {
    var next := PageAt(table, project, f, l, cursor).next;
    PageLeadsOn(table, project, f, l, cursor);
    PageIsStep(table, project, f, l, cursor);
    if next != "" {
      WalkFromIsWalk(table, project, f, l, next);
    }
  }

  /** The events a client visits that starts without a cursor. */
  ghost function WalkEvents(table: seq<Event>, project: string, f: Filter, l: Lowering): seq<Event>
    requires SoundTable(table)
  {
    WalkFrom(table, project, f, l, "")
  }

  /** Everything the filter describes, newest first. */
  function AllEvents(table: seq<Event>, project: string, f: Filter, l: Lowering): seq<Event> {
    Listing(table, project, f.(cursor := ""), l)
  }

  /**
   The log is meant to list every event of the filter. Following the cursors with page size L
   visits exactly the events at positions i of the listing with i mod (L + 1) != L, in order
   and without repeats, so it is complete if and only if the listing fits on one page.
   */
  lemma EventWalk(table: seq<Event>, project: string, f: Filter, l: Lowering)
    requires SoundTable(table)
    ensures SkipsOneAPage(WalkEvents(table, project, f, l), AllEvents(table, project, f, l), PageSize(f.limit), KeyOf)
  {
    var g := EventLogFor(table, project, f, l);
    WalkSkipsOneAPage(g, PageSize(f.limit), WalkEvents(table, project, f, l), AllEvents(table, project, f, l), KeyOf);
  }

  lemma EventLogFor(table: seq<Event>, project: string, f: Filter, l: Lowering) returns (g: Paging<Event>)
    requires SoundTable(table)
    ensures Sound(g) && g.key == KeyOf
    ensures WalkEvents(table, project, f, l) == Walk(g, PageSize(f.limit), "")
    ensures AllEvents(table, project, f, l) == List(g, "")
  {
    g := EventLog(table, project, f, l);
    EventLogIsSound(table, project, f, l);
    WalkFromIsWalk(table, project, f, l, "");
  }

  /** The listing the walk runs over is what the filter describes, newest first. */
  lemma EventListing(table: seq<Event>, project: string, f: Filter, l: Lowering)
    requires SoundTable(table)
    ensures var all := AllEvents(table, project, f, l);
            && Sorted(all, KeyOf)
            && (forall e :: e in all <==> e in table && Matches(project, f.(cursor := ""), l, e))
            && (forall i, j :: 0 <= i < j < |all| ==>
                  || Timestamps.Instant(all[i].at) > Timestamps.Instant(all[j].at)
                  || (Timestamps.Instant(all[i].at) == Timestamps.Instant(all[j].at) && Less(all[j].id, all[i].id)))
  {
    var g := EventLog(table, project, f, l);
    EventLogIsSound(table, project, f, l);
    ListingSorted(g.rows, g.cond(""), g.key);
    forall e ensures e in List(g, "") <==> e in table && Matches(project, f.(cursor := ""), l, e) {
      ListingMember(g.rows, g.cond(""), g.key, e);
    }
  }

  /** With pages of one event, the older of two events is never visited. */
  lemma OlderOfTwoIsSkipped(table: seq<Event>, project: string, f: Filter, l: Lowering)
    requires SoundTable(table) && PageSize(f.limit) == 1
    requires AllEvents(table, project, f, l) == table && |table| == 2
    ensures WalkEvents(table, project, f, l) == [table[0]]
  {
    EventLogIsSound(table, project, f, l);
    WalkFromIsWalk(table, project, f, l, "");
    WalkSkips(EventLog(table, project, f, l), 1, "");
    assert table[2..] == [] && table[..1] == [table[0]];
  }

  const NEWER := Event("b", "p", None, "deploy", "info", "second", Timestamps.Stamp(2024, 5, 1, 0, 0, 0, 0))
  const OLDER := Event("a", "p", None, "deploy", "info", "first", Timestamps.Stamp(2024, 4, 1, 0, 0, 0, 0))
  const ONE_A_PAGE := Filter([], [], "", ZERO_TIME, 1, "", "")

  /** Two events of one project read one at a time: the older one is in the log and never listed. */
  lemma TwoEventsOneAPage(l: Lowering)
    ensures SoundTable([NEWER, OLDER])
    ensures AllEvents([NEWER, OLDER], "p", ONE_A_PAGE, l) == [NEWER, OLDER]
    ensures WalkEvents([NEWER, OLDER], "p", ONE_A_PAGE, l) == [NEWER]
  {
    var table := [NEWER, OLDER];
    TwoEventsAreSound();
    BothAreListed(l);
    OlderOfTwoIsSkipped(table, "p", ONE_A_PAGE, l);
  }

  lemma TwoEventsAreSound()
    ensures SoundTable([NEWER, OLDER]) && Before(KeyOf(NEWER), KeyOf(OLDER))
  {
    TrimShape("a", IsSpace);
    TrimShape("b", IsSpace);
  }

  lemma BothAreListed(l: Lowering)
    ensures AllEvents([NEWER, OLDER], "p", ONE_A_PAGE, l) == [NEWER, OLDER]
  {
    var where := Describes("p", ONE_A_PAGE, l);
    TwoEventsAreSound();
    assert Blank("") && CursorOf("") == None;
    assert where(NEWER) && where(OLDER);
    FilterAll([NEWER, OLDER], where);
    assert ONE_A_PAGE.(cursor := "") == ONE_A_PAGE;
    assert [NEWER, OLDER][1..] == [OLDER] && [OLDER][1..] == [];
    assert Sort([OLDER], KeyOf) == Insert(OLDER, [], KeyOf) == [OLDER];
    assert Sort([NEWER, OLDER], KeyOf) == Insert(NEWER, [OLDER], KeyOf) == [NEWER, OLDER];
  }
}
