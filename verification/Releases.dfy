/**
 Release history paging: ListAppReleases of internal/service/releases.go over
 ListReleasesByApp of internal/store/releases.go.
 */
module Releases {
  import opened Wrappers
  import opened Text
  import opened Keyset

  /** `content` stands for the columns paging does not look at. */
  datatype Release = Release(id: string, project: string, app: string, createdAt: int, content: string)

  /** The releases table, and the project of every app. */
  datatype Database = Database(releases: seq<Release>, apps: map<string, string>)

  datatype Page = Page(releases: seq<Release>, next: string)
  datatype Failure = BadRequest | NotFound | Forbidden

  /** The zero time.Time. */
  const ZERO_TIME := 0

  function KeyOf(r: Release): RowKey { RowKey(r.createdAt, r.id) }

  const NO_CURSOR := RowKey(ZERO_TIME, "")

  predicate CursorSet(c: RowKey) { TrimSpace(c.id) != "" && c.at != ZERO_TIME }

  predicate OfApp(project: string, app: string, r: Release) { r.project == project && r.app == app }

  predicate Selects(project: string, app: string, c: RowKey, r: Release) {
    OfApp(project, app, r) && (CursorSet(c) ==> Before(c, KeyOf(r)))
  }

  function RunQuery(db: Database, where: Release -> bool): seq<Release> {
    Query(db.releases, where, KeyOf)
  }

  /** All releases of the app after the cursor, newest first. */
  function Listing(db: Database, project: string, app: string, c: RowKey): seq<Release> {
    RunQuery(db, r => Selects(project, app, c, r))
  }

  method ListReleasesByApp(db: Database, project: string, app: string, limit: int, c: RowKey)
    returns (r: Result<seq<Release>, Failure>)
    ensures r.Err? <==> TrimSpace(project) == "" || TrimSpace(app) == ""
    ensures r.Ok? ==> r.value == Take(Listing(db, project, app, c), Clamp(limit, 20, 200))
  {
    if TrimSpace(project) == "" || TrimSpace(app) == "" {
      return Err(BadRequest);
    }
    var n: int := limit;
    if n <= 0 {
      n := 20;
    }
    if n > 200 {
      n := 200;
    }
    var rows;
    if CursorSet(c) {
      rows := RunQuery(db, r => OfApp(project, app, r) && Before(c, KeyOf(r)));
    } else {
      rows := RunQuery(db, r => OfApp(project, app, r));
    }
    QueriesList(db, project, app, c);
    var releases := Collect(Take(rows, n));
    return Ok(releases);
  }

  /** The two queries list what Selects accepts, with and without a cursor. */
  lemma QueriesList(db: Database, project: string, app: string, c: RowKey)
    ensures Listing(db, project, app, c) ==
            if CursorSet(c) then RunQuery(db, r => OfApp(project, app, r) && Before(c, KeyOf(r)))
            else RunQuery(db, r => OfApp(project, app, r))
  {
    if CursorSet(c) {
      FilterCongruent(db.releases, r => OfApp(project, app, r) && Before(c, KeyOf(r)),
                      r => Selects(project, app, c, r));
    } else {
      FilterCongruent(db.releases, r => OfApp(project, app, r), r => Selects(project, app, c, r));
    }
  }

  /** The loops over result rows, which convert row by row. */
  method Collect(rows: seq<Release>) returns (out: seq<Release>)
    ensures out == rows
  {
    out := [];
    for i := 0 to |rows|
      invariant out == rows[..i]
    {
      out := out + [rows[i]];
    }
  }

  function Find(releases: seq<Release>, id: string): (r: Option<Release>)
    ensures r.Some? ==> r.value in releases && r.value.id == id
    ensures r.None? ==> forall i :: 0 <= i < |releases| ==> releases[i].id != id
  {
    if releases == [] then None
    else if releases[0].id == id then Some(releases[0])
    else Find(releases[1..], id)
  }

  /** The position a cursor text stands for: the release it names must belong to the app. */
  function Resolve(db: Database, project: string, app: string, cursor: string): Result<RowKey, Failure> {
    if cursor == "" then Ok(NO_CURSOR)
    else
      match Find(db.releases, cursor)
      case None => Err(NotFound)
      case Some(r) => if OfApp(project, app, r) then Ok(KeyOf(r)) else Err(Forbidden)
  }

  /** A page is the beginning of the listing, and its cursor the last release on it, if there are more. */
  function PageFrom(listing: seq<Release>, limit: int): Page
    requires limit > 0
  {
    if |listing| <= limit then Page(listing, "") else Page(listing[..limit], listing[limit - 1].id)
  }

  function PageOf(db: Database, project: string, app: string, limit: int, cursor: string): Result<Page, Failure> {
    var p, a := TrimSpace(project), TrimSpace(app);
    if p == "" || a == "" then Err(BadRequest)
    else if a !in db.apps then Err(NotFound)
    else if db.apps[a] != p then Err(Forbidden)
    else
      match Resolve(db, p, a, TrimSpace(cursor))
      case Err(e) => Err(e)
      case Ok(c) => Ok(PageFrom(Listing(db, p, a, c), Clamp(limit, 20, 100)))
  }

  /** There is no such app, or the cursor names no release. */
  ghost predicate Unknown(db: Database, project: string, app: string, cursor: string) {
    || app !in db.apps
    || (db.apps[app] == project && cursor != "" && forall r :: r in db.releases ==> r.id != cursor)
  }

  /** Another project's app is refused, and so is the release of another app or project as a cursor. */
  lemma StrangersAreForbidden(db: Database, project: string, app: string, limit: int, cursor: string, c: Release)
    requires TrimSpace(project) == project != "" && TrimSpace(app) == app != "" && app in db.apps
    ensures db.apps[app] != project ==> PageOf(db, project, app, limit, cursor) == Err(Forbidden)
    ensures db.apps[app] == project && Sound(db) && c in db.releases && TrimSpace(cursor) == c.id &&
              (c.project != project || c.app != app) ==>
              PageOf(db, project, app, limit, cursor) == Err(Forbidden)
  {
    if Sound(db) && c in db.releases {
      FindUnique(db, c);
    }
  }

  method ListAppReleases(db: Database, project: string, app: string, limit: int, cursor: string)
    returns (r: Result<Page, Failure>)
    ensures r == PageOf(db, project, app, limit, cursor)
    ensures r == Err(BadRequest) <==> TrimSpace(project) == "" || TrimSpace(app) == ""
    ensures TrimSpace(project) != "" && TrimSpace(app) != "" ==>
              (r == Err(NotFound) <==> Unknown(db, TrimSpace(project), TrimSpace(app), TrimSpace(cursor)))
    ensures r.Ok? ==> TrimSpace(app) in db.apps && db.apps[TrimSpace(app)] == TrimSpace(project)
    ensures r.Ok? && TrimSpace(cursor) != "" ==>
              exists c :: c in db.releases && c.id == TrimSpace(cursor) &&
                c.project == TrimSpace(project) && c.app == TrimSpace(app)
    ensures r.Ok? ==> |r.value.releases| <= if limit <= 0 then 20 else if limit > 100 then 100 else limit
  {
    var p, a := TrimSpace(project), TrimSpace(app);
    if p == "" || a == "" {
      return Err(BadRequest);
    }
    var n := limit;
    if n <= 0 {
      n := 20;
    }
    if n > 100 {
      n := 100;
    }
    if a !in db.apps {
      return Err(NotFound);
    }
    if db.apps[a] != p {
      return Err(Forbidden);
    }
    var c := NO_CURSOR;
    var trimmed := TrimSpace(cursor);
    if trimmed != "" {
      var found := Find(db.releases, trimmed);
      if found.None? {
        return Err(NotFound);
      }
      if found.value.project != p || found.value.app != a {
        return Err(Forbidden);
      }
      c := KeyOf(found.value);
    }
    TrimSpaceIdempotent(project);
    TrimSpaceIdempotent(app);
    var page := FetchPage(db, p, a, n, c);
    return Ok(page);
  }

  /** One row more than the page is fetched; the cursor is the last row that is kept. */
  method FetchPage(db: Database, project: string, app: string, n: int, c: RowKey) returns (page: Page)
    requires TrimSpace(project) == project != "" && TrimSpace(app) == app != "" && 0 < n <= 100
    ensures page == PageFrom(Listing(db, project, app, c), n)
  {
    var fetched := ListReleasesByApp(db, project, app, n + 1, c);
    var rows := fetched.value;
    var hasMore := |rows| > n;
    if hasMore {
      rows := rows[..n];
    }
    var kept := Collect(rows);
    PageOfFetched(Listing(db, project, app, c), n);
    return Page(kept, if hasMore then rows[|rows| - 1].id else "");
  }

  /** Fetching one row more than the page tells whether there are more. */
  lemma PageOfFetched(listing: seq<Release>, n: int)
    requires n > 0
    ensures var rows := Take(listing, n + 1);
            PageFrom(listing, n) == if |rows| > n then Page(rows[..n], rows[n - 1].id) else Page(rows, "")
  {
  }

  // ---------------------------------------------------------------- the walk

  /** Identifiers are unique, not blank and without surrounding spaces, and no row has the zero time. */
  ghost predicate Sound(db: Database) {
    && (forall i, j :: 0 <= i < j < |db.releases| ==> db.releases[i].id != db.releases[j].id)
    && (forall r :: r in db.releases ==> TrimSpace(r.id) == r.id != "" && r.createdAt != ZERO_TIME)
  }

  predicate Request(db: Database, project: string, app: string) {
    TrimSpace(project) == project != "" && TrimSpace(app) == app != "" && app in db.apps && db.apps[app] == project
  }

  function All(db: Database, project: string, app: string): seq<Release> {
    Listing(db, project, app, NO_CURSOR)
  }

  predicate ValidCursor(db: Database, project: string, app: string, cursor: string) {
    cursor == "" || exists r :: r in db.releases && r.id == cursor && OfApp(project, app, r)
  }

  /** What is left to list from a cursor. */
  function Rest(db: Database, project: string, app: string, cursor: string): seq<Release> {
    var c := Resolve(db, project, app, cursor);
    if c.Ok? then Listing(db, project, app, c.value) else []
  }

  lemma SoundKeys(db: Database)
    requires Sound(db)
    ensures DistinctKeys(db.releases, KeyOf)
  {
  }

  lemma AllRows(db: Database, project: string, app: string)
    requires Sound(db)
    ensures Sorted(All(db, project, app), KeyOf)
    ensures forall r :: r in All(db, project, app) <==> r in db.releases && OfApp(project, app, r)
  {
    var where := r => Selects(project, app, NO_CURSOR, r);
    SoundKeys(db);
    ListingSorted(db.releases, where, KeyOf);
    assert !CursorSet(NO_CURSOR);
    forall r ensures r in All(db, project, app) <==> r in db.releases && OfApp(project, app, r) {
      ListingMember(db.releases, where, KeyOf, r);
    }
  }

  lemma FindUnique(db: Database, r: Release)
    requires Sound(db) && r in db.releases
    ensures Find(db.releases, r.id) == Some(r)
  {
    var found := Find(db.releases, r.id).value;
    var i :| 0 <= i < |db.releases| && db.releases[i] == r;
    var j :| 0 <= j < |db.releases| && db.releases[j] == found;
  }

  /** From the cursor of the j-th release, what is left is everything after it. */
  lemma RestAfter(db: Database, project: string, app: string, j: nat)
    requires Sound(db) && j < |All(db, project, app)|
    ensures All(db, project, app)[j].id != "" && ValidCursor(db, project, app, All(db, project, app)[j].id)
    ensures Rest(db, project, app, All(db, project, app)[j].id) == All(db, project, app)[j + 1..]
  {
    var row := All(db, project, app)[j];
    AllRows(db, project, app);
    assert row in db.releases && OfApp(project, app, row);
    FindUnique(db, row);
    assert CursorSet(KeyOf(row));
    SoundKeys(db);
    ListingAfter(db.releases, KeyOf, r => Selects(project, app, NO_CURSOR, r), j,
                 r => Selects(project, app, KeyOf(row), r));
  }

  lemma RestIsSuffix(db: Database, project: string, app: string, cursor: string) returns (i: nat)
    requires Sound(db) && ValidCursor(db, project, app, cursor)
    ensures i <= |All(db, project, app)| && Rest(db, project, app, cursor) == All(db, project, app)[i..]
  {
    if cursor == "" {
      i := 0;
    } else {
      var r :| r in db.releases && r.id == cursor && OfApp(project, app, r);
      AllRows(db, project, app);
      var j :| 0 <= j < |All(db, project, app)| && All(db, project, app)[j] == r;
      RestAfter(db, project, app, j);
      i := j + 1;
    }
  }

  /** One call returns the next `limit` releases and a cursor for what comes after them. */
  lemma PageAdvances(db: Database, project: string, app: string, limit: int, cursor: string)
    requires Sound(db) && Request(db, project, app) && ValidCursor(db, project, app, cursor)
    ensures PageOf(db, project, app, limit, cursor).Ok?
    ensures var page, n := PageOf(db, project, app, limit, cursor).value, Clamp(limit, 20, 100);
            var rest := Rest(db, project, app, cursor);
            && page.releases == Take(rest, n)
            && (page.next == "" <==> |rest| <= n)
            && (page.next != "" ==>
                  ValidCursor(db, project, app, page.next) && Rest(db, project, app, page.next) == rest[n..])
  {
    var n, rest := Clamp(limit, 20, 100), Rest(db, project, app, cursor);
    CursorResolves(db, project, app, cursor);
    if |rest| > n {
      RestContinues(db, project, app, cursor, n);
    }
  }

  lemma RestContinues(db: Database, project: string, app: string, cursor: string, n: nat)
    requires Sound(db) && ValidCursor(db, project, app, cursor)
    requires 0 < n < |Rest(db, project, app, cursor)|
    ensures var rest := Rest(db, project, app, cursor);
            && rest[n - 1].id != "" && ValidCursor(db, project, app, rest[n - 1].id)
            && Rest(db, project, app, rest[n - 1].id) == rest[n..]
  {
    var all, rest := All(db, project, app), Rest(db, project, app, cursor);
    var i := RestIsSuffix(db, project, app, cursor);
    var j := i + n - 1;
    SuffixParts(all, i, rest, n - 1);
    RestAfter(db, project, app, j);
  }

  lemma TakeThenRest<T>(rest: seq<T>, n: nat)
    ensures Take(rest, n) + (if |rest| <= n then [] else rest[n..]) == rest
  {
  }

  lemma CursorResolves(db: Database, project: string, app: string, cursor: string)
    requires Sound(db) && ValidCursor(db, project, app, cursor)
    ensures TrimSpace(cursor) == cursor && Resolve(db, project, app, cursor).Ok?
  {
    if cursor != "" {
      var r :| r in db.releases && r.id == cursor && OfApp(project, app, r);
      FindUnique(db, r);
    }
  }

  /** Follow the cursors from `cursor` until a page comes without one. */
  ghost function Walk(db: Database, project: string, app: string, limit: int, cursor: string): seq<Release>
    requires Sound(db) && Request(db, project, app) && ValidCursor(db, project, app, cursor)
    decreases |Rest(db, project, app, cursor)|
  {
    PageAdvances(db, project, app, limit, cursor);
    var page := PageOf(db, project, app, limit, cursor).value;
    if page.next == "" then page.releases
    else page.releases + Walk(db, project, app, limit, page.next)
  }

  lemma {:induction false} WalkListsRest(db: Database, project: string, app: string, limit: int, cursor: string)
    requires Sound(db) && Request(db, project, app) && ValidCursor(db, project, app, cursor)
    ensures Walk(db, project, app, limit, cursor) == Rest(db, project, app, cursor)
    decreases |Rest(db, project, app, cursor)|
  {
    PageAdvances(db, project, app, limit, cursor);
    var page, n := PageOf(db, project, app, limit, cursor).value, Clamp(limit, 20, 100);
    TakeThenRest(Rest(db, project, app, cursor), n);
    if page.next != "" {
      WalkListsRest(db, project, app, limit, page.next);
    }
  }

  /**
   Paging from the beginning with any limit ends, and lists every release of the app exactly
   once, newest first: the result is strictly ordered and its members are the app's releases.
   */
  lemma WalkVisitsEachOnce(db: Database, project: string, app: string, limit: int)
    requires Sound(db) && Request(db, project, app)
    ensures var visited := Walk(db, project, app, limit, "");
            && (forall i, j :: 0 <= i < j < |visited| ==>
                  && visited[i] != visited[j]
                  && (visited[i].createdAt > visited[j].createdAt ||
                      (visited[i].createdAt == visited[j].createdAt && Less(visited[j].id, visited[i].id))))
            && (forall r :: r in visited <==> r in db.releases && r.project == project && r.app == app)
  {
    WalkListsRest(db, project, app, limit, "");
    AllRows(db, project, app);
    var visited := Walk(db, project, app, limit, "");
    forall i, j | 0 <= i < j < |visited| ensures visited[i] != visited[j] {
      BeforeIsStrict(KeyOf(visited[i]), KeyOf(visited[j]), KeyOf(visited[j]));
    }
  }

  /** The condition on times is needed: a cursor at a release with the zero time starts over. */
  lemma ZeroTimeStartsOver(db: Database, project: string, app: string, limit: int, r: Release)
    requires Request(db, project, app) && r in db.releases && OfApp(project, app, r)
    requires TrimSpace(r.id) == r.id != "" && Find(db.releases, r.id) == Some(r) && r.createdAt == ZERO_TIME
    ensures PageOf(db, project, app, limit, r.id) == PageOf(db, project, app, limit, "")
  {
    assert TrimSpace("") == "";
    FilterCongruent(db.releases, x => Selects(project, app, KeyOf(r), x), x => Selects(project, app, NO_CURSOR, x));
  }
}
