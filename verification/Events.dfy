/**
 The project event log, internal/store/events.go: compiling a filter into a query with numbered
 placeholders, the paging cursor, and what following the cursors visits.
 */
module Events {
  import opened Wrappers
  import opened Text
  import opened Keyset
  import Like
  import Timestamps

  type Stamp = Timestamps.Stamp

  /** A project_events row. `actor` is None for NULL. */
  datatype Event = Event(id: string, project: string, actor: Option<string>, kind: string, severity: string,
                         message: string, at: Stamp)

  /** `since` is the zero instant when unset. */
  datatype Filter = Filter(kinds: seq<string>, severities: seq<string>, actor: string, since: int, limit: int,
                           cursor: string, search: string)

  /** Lower-casing beyond ASCII, in Go and in the database. */
  datatype Lowering = Lowering(go: char -> char, db: char -> char)

  datatype Page = Page(events: seq<Event>, next: string)

  const ZERO_TIME := Timestamps.Instant(Timestamps.Stamp(1, 1, 1, 0, 0, 0, 0))

  function KeyOf(e: Event): RowKey { RowKey(Timestamps.Instant(e.at), e.id) }

  // ---------------------------------------------------------------- cursors

  function EncodeCursor(at: Stamp, id: string): string {
    if id == "" then "" else Timestamps.Format(at) + "|" + id
  }

  function DecodeCursor(raw: string): Option<RowKey> {
    var parts := Split(raw, '|');
    if |parts| != 2 then None
    else
      var at := Timestamps.Parse(parts[0]);
      var id := TrimSpace(parts[1]);
      if at.None? || id == "" then None else Some(RowKey(at.value, id))
  }

  predicate CursorSafe(id: string) { id != "" && '|' !in id && TrimSpace(id) == id }

  lemma {:induction false} SplitCountsSeparators(s: string, sep: char)
    ensures |Split(s, sep)| == 1 <==> sep !in s
  {
    if s != "" {
      SplitCountsSeparators(s[1..], sep);
      assert sep in s <==> s[0] == sep || sep in s[1..];
    }
  }

  /** A cursor is read back exactly when the identifier is not empty, has no `|` and no outer spaces. */
  lemma CursorRoundTripIff(at: Stamp, id: string)
    requires Timestamps.Valid(at)
    ensures DecodeCursor(EncodeCursor(at, id)) == Some(RowKey(Timestamps.Instant(at), id)) <==> CursorSafe(id)
  {
    if id == "" {
      assert Split("", '|') == [""];
    } else {
      Timestamps.FormatHasNoBar(at);
      Timestamps.ParseFormat(at);
      DecodeParts(Timestamps.Format(at), id, Timestamps.Instant(at));
    }
  }

  lemma DecodeParts(text: string, id: string, at: int)
    requires '|' !in text && Timestamps.Parse(text) == Some(at) && id != ""
    ensures DecodeCursor(text + "|" + id) == Some(RowKey(at, id)) <==> CursorSafe(id)
  {
    SplitAtSeparator(text, '|', id);
    SplitCountsSeparators(id, '|');
    if '|' !in id {
      SplitWithoutSeparator(id, '|');
      assert [text] + [id] == [text, id];
    }
  }

  // ---------------------------------------------------------------- what a filter describes

  predicate Blank(s: string) { TrimSpace(s) == "" }

  /** No non-blank value, or one of them is `v`. */
  predicate Among(values: seq<string>, v: string) {
    (exists w :: w in values && !Blank(w)) ==> v in values && !Blank(v)
  }

  predicate ActorMatches(actor: string, e: Event) { !Blank(actor) ==> e.actor == Some(actor) }
  predicate SinceMatches(since: int, e: Event) { since != ZERO_TIME ==> Timestamps.Instant(e.at) >= since }

  function SearchPattern(search: string, l: Lowering): string { "%" + (ToLower(TrimSpace(search), l.go) + "%") }

  predicate SearchMatches(search: string, l: Lowering, e: Event) {
    !Blank(search) ==>
      || Like.Like(ToLower(e.message, l.db), SearchPattern(search, l))
      || Like.Like(ToLower(e.kind, l.db), SearchPattern(search, l))
  }

  /** The position a cursor stands for. A blank or unreadable cursor is ignored. */
  function CursorOf(cursor: string): Option<RowKey> { if Blank(cursor) then None else DecodeCursor(cursor) }

  predicate CursorMatches(cursor: Option<RowKey>, e: Event) { cursor.Some? ==> Before(cursor.value, KeyOf(e)) }

  predicate Matches(project: string, f: Filter, l: Lowering, e: Event) {
    && e.project == project
    && Among(f.kinds, e.kind)
    && Among(f.severities, e.severity)
    && ActorMatches(f.actor, e)
    && SinceMatches(f.since, e)
    && CursorMatches(CursorOf(f.cursor), e)
    && SearchMatches(f.search, l, e)
  }

  /** The filter as a condition on events. */
  function Describes(project: string, f: Filter, l: Lowering): Event -> bool {
    e => Matches(project, f, l, e)
  }

  // ---------------------------------------------------------------- what a filter means

  /** The term a search looks for. */
  function Term(search: string, l: Lowering): string { ToLower(TrimSpace(search), l.go) }

  /** The term stands somewhere in the event's message or kind, whatever their case. */
  ghost predicate Mentions(e: Event, term: string, l: Lowering) {
    Like.Contains(ToLower(e.message, l.db), term) || Like.Contains(ToLower(e.kind, l.db), term)
  }

  /** What a filter asks for, field by field; the text search asks for the term somewhere in message or kind. */
  ghost predicate Wants(project: string, f: Filter, l: Lowering, e: Event) {
    && e.project == project
    && ((forall k :: k in f.kinds ==> TrimSpace(k) == "") || (e.kind in f.kinds && TrimSpace(e.kind) != ""))
    && ((forall v :: v in f.severities ==> TrimSpace(v) == "") ||
        (e.severity in f.severities && TrimSpace(e.severity) != ""))
    && (TrimSpace(f.actor) == "" || e.actor == Some(f.actor))
    && (f.since == ZERO_TIME || Timestamps.Instant(e.at) >= f.since)
    && (TrimSpace(f.cursor) == "" ||
        match DecodeCursor(f.cursor)
        case None => true
        case Some(c) =>
          Timestamps.Instant(e.at) < c.at || (Timestamps.Instant(e.at) == c.at && Less(e.id, c.id)))
    && (TrimSpace(f.search) == "" || Mentions(e, Term(f.search, l), l))
  }

  /** A search for a plain term finds exactly the texts that contain it. */
  lemma SearchFindsTerm(search: string, l: Lowering, text: string)
    requires Like.Plain(Term(search, l))
    ensures Like.Like(text, SearchPattern(search, l)) <==> Like.Contains(text, Term(search, l))
  {
    Like.PlainSearchIsContainment(text, Term(search, l));
  }

  /** What a filter matches is what it asks for, as long as its search term holds no LIKE wildcard. */
  lemma MatchesWhatIsWanted(project: string, f: Filter, l: Lowering, e: Event)
    requires TrimSpace(f.search) == "" || Like.Plain(Term(f.search, l))
    ensures Matches(project, f, l, e) <==> Wants(project, f, l, e)
  {
    if TrimSpace(f.search) != "" {
      SearchFindsTerm(f.search, l, ToLower(e.message, l.db));
      SearchFindsTerm(f.search, l, ToLower(e.kind, l.db));
    }
    MatchesButSearch(project, f, l, e);
  }

  lemma MatchesButSearch(project: string, f: Filter, l: Lowering, e: Event)
    requires SearchMatches(f.search, l, e) <==>
             (TrimSpace(f.search) == "" || Mentions(e, Term(f.search, l), l))
    ensures Matches(project, f, l, e) <==> Wants(project, f, l, e)
  {
  }

  // ---------------------------------------------------------------- queries with placeholders

  datatype Arg = Text(text: string) | Time(instant: int) | Count(count: int)

  /** One conjunct of the WHERE clause; the numbers are the placeholders $n written in it. */
  datatype Clause =
    | ProjectIs(p: nat)
    | KindIn(ps: seq<nat>)
    | SeverityIn(ps: seq<nat>)
    | ActorIs(p: nat)
    | AtLeast(p: nat)
    | OlderThan(at: nat, sameAt: nat, id: nat)
    | MessageOrKindLike(message: nat, kind: nat)

  datatype Query = Query(clauses: seq<Clause>, args: seq<Arg>)

  function Placeholders(c: Clause): set<nat> {
    match c
    case ProjectIs(p) => {p}
    case KindIn(ps) => set p | p in ps
    case SeverityIn(ps) => set p | p in ps
    case ActorIs(p) => {p}
    case AtLeast(p) => {p}
    case OlderThan(at, sameAt, id) => {at, sameAt, id}
    case MessageOrKindLike(m, k) => {m, k}
  }

  function AllPlaceholders(clauses: seq<Clause>): set<nat> {
    if clauses == [] then {} else AllPlaceholders(clauses[..|clauses| - 1]) + Placeholders(clauses[|clauses| - 1])
  }

  function UpTo(n: nat): (r: set<nat>)
    ensures forall i :: i in r <==> 1 <= i <= n
  {
    if n == 0 then {} else UpTo(n - 1) + {n}
  }

  /** The value a placeholder is bound to, None when it is out of range. */
  function Bound(args: seq<Arg>, p: nat): Option<Arg> {
    if 1 <= p <= |args| then Some(args[p - 1]) else None
  }

  /** `column < value` and `column = value` on times, `column < value` on identifiers. */
  predicate Holds(c: Clause, args: seq<Arg>, e: Event, l: Lowering) {
    var at := Timestamps.Instant(e.at);
    match c
    case ProjectIs(p) => Bound(args, p) == Some(Text(e.project))
    case KindIn(ps) => exists p :: p in ps && Bound(args, p) == Some(Text(e.kind))
    case SeverityIn(ps) => exists p :: p in ps && Bound(args, p) == Some(Text(e.severity))
    case ActorIs(p) => e.actor.Some? && Bound(args, p) == Some(Text(e.actor.value))
    case AtLeast(p) => TimeAt(args, p).Some? && at >= TimeAt(args, p).value
    case OlderThan(t, same, id) =>
      || (TimeAt(args, t).Some? && at < TimeAt(args, t).value)
      || (TimeAt(args, same) == Some(at) && TextAt(args, id).Some? && Less(e.id, TextAt(args, id).value))
    case MessageOrKindLike(m, k) =>
      || (TextAt(args, m).Some? && Like.Like(ToLower(e.message, l.db), TextAt(args, m).value))
      || (TextAt(args, k).Some? && Like.Like(ToLower(e.kind, l.db), TextAt(args, k).value))
  }

  function TimeAt(args: seq<Arg>, p: nat): Option<int> {
    match Bound(args, p)
    case Some(Time(t)) => Some(t)
    case _ => None
  }

  function TextAt(args: seq<Arg>, p: nat): Option<string> {
    match Bound(args, p)
    case Some(Text(s)) => Some(s)
    case _ => None
  }

  predicate Accepts(q: Query, e: Event, l: Lowering) {
    forall i :: 0 <= i < |q.clauses| ==> Holds(q.clauses[i], q.args, e, l)
  }

  /** Every placeholder is in range, and every argument is used. */
  predicate WellBound(q: Query) { AllPlaceholders(q.clauses) == UpTo(|q.args|) }

  lemma {:induction false} ClausesInRange(clauses: seq<Clause>, i: nat)
    requires i < |clauses|
    ensures Placeholders(clauses[i]) <= AllPlaceholders(clauses)
  {
    if i < |clauses| - 1 {
      ClausesInRange(clauses[..|clauses| - 1], i);
    }
  }

  /** More arguments at the end do not change a clause that is in range. */
  lemma HoldsIsStable(c: Clause, args: seq<Arg>, more: seq<Arg>, e: Event, l: Lowering)
    requires Placeholders(c) <= UpTo(|args|)
    ensures Holds(c, args + more, e, l) <==> Holds(c, args, e, l)
  {
    forall p | p in Placeholders(c) ensures Bound(args + more, p) == Bound(args, p) {
      assert p in UpTo(|args|);
    }
    match c {
      case KindIn(ps) => SameBound(ps, args, args + more, e.kind);
      case SeverityIn(ps) => SameBound(ps, args, args + more, e.severity);
      case _ =>
    }
  }

  lemma SameBound(ps: seq<nat>, args: seq<Arg>, args': seq<Arg>, v: string)
    requires forall p :: p in ps ==> Bound(args', p) == Bound(args, p)
    ensures (exists p :: p in ps && Bound(args', p) == Some(Text(v))) <==>
            (exists p :: p in ps && Bound(args, p) == Some(Text(v)))
  {
  }

  function Extend(q: Query, c: Clause, more: seq<Arg>): Query { Query(q.clauses + [c], q.args + more) }

  lemma ExtendAccepts(q: Query, c: Clause, more: seq<Arg>, e: Event, l: Lowering)
    requires AllPlaceholders(q.clauses) <= UpTo(|q.args|)
    ensures Accepts(Extend(q, c, more), e, l) <==> Accepts(q, e, l) && Holds(c, q.args + more, e, l)
  {
    var v := Extend(q, c, more);
    forall i | 0 <= i < |q.clauses| ensures Holds(v.clauses[i], v.args, e, l) <==> Holds(q.clauses[i], q.args, e, l) {
      ClausesInRange(q.clauses, i);
      HoldsIsStable(q.clauses[i], q.args, more, e, l);
    }
    assert v.clauses[|q.clauses|] == c;
  }

  lemma ExtendBinds(q: Query, c: Clause, more: seq<Arg>)
    requires WellBound(q)
    requires Placeholders(c) == UpTo(|q.args| + |more|) - UpTo(|q.args|)
    ensures WellBound(Extend(q, c, more))
  {
    var clauses := Extend(q, c, more).clauses;
    assert clauses[..|clauses| - 1] == q.clauses;
    assert AllPlaceholders(clauses) == AllPlaceholders(q.clauses) + Placeholders(c);
  }

  /** Appending a clause that uses exactly the appended arguments adds one conjunct. */
  lemma ExtendAddsConjunct(q: Query, c: Clause, more: seq<Arg>, l: Lowering)
    requires WellBound(q)
    requires Placeholders(c) == UpTo(|q.args| + |more|) - UpTo(|q.args|)
    ensures WellBound(Extend(q, c, more))
    ensures forall e :: Accepts(Extend(q, c, more), e, l) <==> Accepts(q, e, l) && Holds(c, q.args + more, e, l)
  {
    ExtendBinds(q, c, more);
    forall e ensures Accepts(Extend(q, c, more), e, l) <==> Accepts(q, e, l) && Holds(c, q.args + more, e, l) {
      ExtendAccepts(q, c, more, e, l);
    }
  }

  // ---------------------------------------------------------------- the query builder

  predicate NotBlank(value: string) { !Blank(value) }

  /** The non-blank values, in order. */
  function NonBlank(values: seq<string>): seq<string> { Keyset.Filter(values, NotBlank) }

  /** `out` is `args` followed by the non-blank values, and `ps` are the numbers of those. */
  predicate ListBound(args: seq<Arg>, values: seq<string>, out: seq<Arg>, ps: seq<nat>) {
    && |ps| == |NonBlank(values)| && |out| == |args| + |ps| && args <= out
    && forall i :: 0 <= i < |ps| ==> ps[i] == |args| + 1 + i && out[|args| + i] == Text(NonBlank(values)[i])
  }

  /** The loop over kinds or severities: the values become arguments, and their numbers are collected. */
  method BindList(args: seq<Arg>, values: seq<string>) returns (out: seq<Arg>, placeholders: seq<nat>)
    ensures ListBound(args, values, out, placeholders)
  {
    out, placeholders := args, [];
    for i := 0 to |values|
      invariant ListBound(args, values[..i], out, placeholders)
    {
      FilterLast(values, i, NotBlank);
      if Blank(values[i]) {
        continue;
      }
      out := out + [Text(values[i])];
      placeholders := placeholders + [|out|];
    }
    assert values[..|values|] == values;
  }

  /** The bound values accept exactly what the filter list describes. */
  lemma BoundListAccepts(args: seq<Arg>, values: seq<string>, out: seq<Arg>, ps: seq<nat>, v: string)
    requires ListBound(args, values, out, ps)
    ensures |ps| > 0 ==> ((exists p :: p in ps && Bound(out, p) == Some(Text(v))) <==> Among(values, v))
    ensures |ps| == 0 ==> Among(values, v)
  {
    var kept := NonBlank(values);
    FilterMember(values, NotBlank, v);
    forall w | w in values && !Blank(w) ensures |ps| > 0 {
      FilterMember(values, NotBlank, w);
    }
    if |ps| > 0 {
      FilterMember(values, NotBlank, kept[0]);
      if v in kept {
        var i :| 0 <= i < |kept| && kept[i] == v;
        assert ps[i] in ps && Bound(out, ps[i]) == Some(Text(v));
      }
    }
  }

  lemma BoundListNumbers(args: seq<Arg>, values: seq<string>, out: seq<Arg>, ps: seq<nat>)
    requires ListBound(args, values, out, ps)
    ensures (set p | p in ps) == UpTo(|out|) - UpTo(|args|)
  {
    forall p | p in UpTo(|out|) - UpTo(|args|) ensures p in ps {
      assert ps[p - |args| - 1] == p;
    }
  }

  lemma ListCompiles(q: Query, values: seq<string>, out: seq<Arg>, ps: seq<nat>, l: Lowering)
    requires WellBound(q) && ListBound(q.args, values, out, ps) && |ps| > 0
    ensures var r := Query(q.clauses + [KindIn(ps)], out);
            WellBound(r) && forall e :: Accepts(r, e, l) <==> Accepts(q, e, l) && Among(values, e.kind)
    ensures var r := Query(q.clauses + [SeverityIn(ps)], out);
            WellBound(r) && forall e :: Accepts(r, e, l) <==> Accepts(q, e, l) && Among(values, e.severity)
  {
    var more := out[|q.args|..];
    assert out == q.args + more;
    BoundListNumbers(q.args, values, out, ps);
    ExtendAddsConjunct(q, KindIn(ps), more, l);
    ExtendAddsConjunct(q, SeverityIn(ps), more, l);
    forall e: Event
      ensures Holds(KindIn(ps), out, e, l) <==> Among(values, e.kind)
      ensures Holds(SeverityIn(ps), out, e, l) <==> Among(values, e.severity)
    {
      BoundListAccepts(q.args, values, out, ps, e.kind);
      BoundListAccepts(q.args, values, out, ps, e.severity);
    }
  }

  method AddKinds(q: Query, values: seq<string>, l: Lowering) returns (r: Query)
    requires WellBound(q)
    ensures WellBound(r)
    ensures forall e :: Accepts(r, e, l) <==> Accepts(q, e, l) && Among(values, e.kind)
  {
    var args, ps := BindList(q.args, values);
    if |ps| > 0 {
      ListCompiles(q, values, args, ps, l);
      r := Query(q.clauses + [KindIn(ps)], args);
    } else {
      r := q;
      forall e: Event ensures Among(values, e.kind) {
        BoundListAccepts(q.args, values, args, ps, e.kind);
      }
    }
  }

  method AddSeverities(q: Query, values: seq<string>, l: Lowering) returns (r: Query)
    requires WellBound(q)
    ensures WellBound(r)
    ensures forall e :: Accepts(r, e, l) <==> Accepts(q, e, l) && Among(values, e.severity)
  {
    var args, ps := BindList(q.args, values);
    if |ps| > 0 {
      ListCompiles(q, values, args, ps, l);
      r := Query(q.clauses + [SeverityIn(ps)], args);
    } else {
      r := q;
      forall e: Event ensures Among(values, e.severity) {
        BoundListAccepts(q.args, values, args, ps, e.severity);
      }
    }
  }

  method AddActor(q: Query, actor: string, l: Lowering) returns (r: Query)
    requires WellBound(q)
    ensures WellBound(r)
    ensures forall e :: Accepts(r, e, l) <==> Accepts(q, e, l) && ActorMatches(actor, e)
  {
    r := q;
    if !Blank(actor) {
      var c, more := ActorIs(|q.args| + 1), [Text(actor)];
      r := Extend(q, c, more);
      ExtendAddsConjunct(q, c, more, l);
    }
  }

  method AddSince(q: Query, since: int, l: Lowering) returns (r: Query)
    requires WellBound(q)
    ensures WellBound(r)
    ensures forall e :: Accepts(r, e, l) <==> Accepts(q, e, l) && SinceMatches(since, e)
  {
    r := q;
    if since != ZERO_TIME {
      var c, more := AtLeast(|q.args| + 1), [Time(since)];
      r := Extend(q, c, more);
      ExtendAddsConjunct(q, c, more, l);
      assert forall e: Event :: Holds(c, r.args, e, l) <==> SinceMatches(since, e) by {
        assert Bound(r.args, |q.args| + 1) == Some(Time(since));
      }
    }
  }

  method AddCursor(q: Query, cursor: Option<RowKey>, l: Lowering) returns (r: Query)
    requires WellBound(q)
    ensures WellBound(r)
    ensures forall e :: Accepts(r, e, l) <==> Accepts(q, e, l) && CursorMatches(cursor, e)
  {
    r := q;
    if cursor.Some? {
      var n := |q.args|;
      var c, more := OlderThan(n + 1, n + 1, n + 2), [Time(cursor.value.at), Text(cursor.value.id)];
      r := Extend(q, c, more);
      ExtendAddsConjunct(q, c, more, l);
      OlderThanIsBefore(r.args, n, cursor.value, l);
    }
  }

  lemma OlderThanIsBefore(args: seq<Arg>, n: nat, k: RowKey, l: Lowering)
    requires Bound(args, n + 1) == Some(Time(k.at)) && Bound(args, n + 2) == Some(Text(k.id))
    ensures forall e :: Holds(OlderThan(n + 1, n + 1, n + 2), args, e, l) <==> Before(k, KeyOf(e))
  {
  }

  lemma LikeIsSearch(args: seq<Arg>, n: nat, search: string, l: Lowering)
    requires Bound(args, n + 1) == Bound(args, n + 2) == Some(Text(SearchPattern(search, l))) && !Blank(search)
    ensures forall e :: Holds(MessageOrKindLike(n + 1, n + 2), args, e, l) <==> SearchMatches(search, l, e)
  {
  }

  method AddSearch(q: Query, search: string, l: Lowering) returns (r: Query)
    requires WellBound(q)
    ensures WellBound(r)
    ensures forall e :: Accepts(r, e, l) <==> Accepts(q, e, l) && SearchMatches(search, l, e)
    ensures TrimSpace(search) != "" && Like.Plain(Term(search, l)) ==>
              forall e :: Accepts(r, e, l) <==> Accepts(q, e, l) && Mentions(e, Term(search, l), l)
  {
    r := q;
    if !Blank(search) {
      if Like.Plain(Term(search, l)) {
        forall e ensures SearchMatches(search, l, e) <==> Mentions(e, Term(search, l), l) {
          SearchFindsTerm(search, l, ToLower(e.message, l.db));
          SearchFindsTerm(search, l, ToLower(e.kind, l.db));
        }
      }
      var n, term := |q.args|, SearchPattern(search, l);
      var c, more := MessageOrKindLike(n + 1, n + 2), [Text(term), Text(term)];
      r := Extend(q, c, more);
      ExtendAddsConjunct(q, c, more, l);
      LikeIsSearch(r.args, n, search, l);
    }
  }

  /**
   The query for a filter accepts exactly the events the filter describes. Every placeholder
   from $1 to the last argument is written, and none beyond.
   */
  method BuildQuery(project: string, f: Filter, l: Lowering) returns (q: Query)
    ensures WellBound(q)
    ensures forall e :: Accepts(q, e, l) <==> Matches(project, f, l, e)
    ensures TrimSpace(f.search) == "" || Like.Plain(Term(f.search, l)) ==>
              forall e :: Accepts(q, e, l) <==> Wants(project, f, l, e)
  {
    var start := Query([], []);
    q := Extend(start, ProjectIs(1), [Text(project)]);
    ExtendAddsConjunct(start, ProjectIs(1), [Text(project)], l);
    q := AddKinds(q, f.kinds, l);
    q := AddSeverities(q, f.severities, l);
    q := AddActor(q, f.actor, l);
    q := AddSince(q, f.since, l);
    q := AddCursor(q, CursorOf(f.cursor), l);
    q := AddSearch(q, f.search, l);
    if TrimSpace(f.search) == "" || Like.Plain(Term(f.search, l)) {
      forall e: Event ensures Matches(project, f, l, e) <==> Wants(project, f, l, e) {
        MatchesWhatIsWanted(project, f, l, e);
      }
    }
  }

  // ---------------------------------------------------------------- one page

  /** The whole statement: the query and the placeholder after LIMIT. */
  datatype Statement = Statement(query: Query, limit: nat)

  function PageSize(limit: int): int { Keyset.Clamp(limit, 50, 500) }

  method BuildStatement(project: string, f: Filter, l: Lowering) returns (s: Statement)
    ensures Bound(s.query.args, s.limit) == Some(Count(PageSize(f.limit) + 1))
    ensures AllPlaceholders(s.query.clauses) + {s.limit} == UpTo(|s.query.args|)
    ensures s.limit !in AllPlaceholders(s.query.clauses)
    ensures forall e :: Accepts(s.query, e, l) <==> Matches(project, f, l, e)
    ensures TrimSpace(f.search) == "" || Like.Plain(Term(f.search, l)) ==>
              forall e :: Accepts(s.query, e, l) <==> Wants(project, f, l, e)
  {
    var limit := f.limit;
    if limit <= 0 {
      limit := 50;
    }
    if limit > 500 {
      limit := 500;
    }
    var q := BuildQuery(project, f, l);
    var args := q.args + [Count(limit + 1)];
    s := Statement(Query(q.clauses, args), |args|);
    forall e: Event ensures Accepts(s.query, e, l) <==> Accepts(q, e, l) {
      forall i | 0 <= i < |q.clauses| ensures Holds(q.clauses[i], args, e, l) <==> Holds(q.clauses[i], q.args, e, l) {
        ClausesInRange(q.clauses, i);
        HoldsIsStable(q.clauses[i], q.args, [Count(limit + 1)], e, l);
      }
    }
  }

  /** What the database returns. */
  function Execute(table: seq<Event>, s: Statement, l: Lowering): seq<Event> {
    var rows := Keyset.Query(table, e => Accepts(s.query, e, l), KeyOf);
    match Bound(s.query.args, s.limit)
    case Some(Count(n)) => if n < 0 then rows else Take(rows, n)
    case _ => rows
  }

  /** Everything the filter describes, newest first. */
  function Listing(table: seq<Event>, project: string, f: Filter, l: Lowering): seq<Event> {
    Keyset.Query(table, Describes(project, f, l), KeyOf)
  }

  /** The cursor is taken from the first event that did not fit on the page. */
  function PageFrom(listing: seq<Event>, n: int): Page
    requires n > 0
  {
    if |listing| <= n then Page(listing, "") else Page(listing[..n], EncodeCursor(listing[n].at, listing[n].id))
  }

  method ListProjectEvents(table: seq<Event>, project: string, f: Filter, l: Lowering) returns (r: Result<Page, string>)
    ensures r.Err? <==> Blank(project)
    ensures r.Ok? ==> r.value == PageFrom(Listing(table, project, f, l), PageSize(f.limit))
    ensures r.Ok? ==>
              var all, most := |Listing(table, project, f, l)|,
                               (if f.limit <= 0 then 50 else if f.limit > 500 then 500 else f.limit);
              |r.value.events| == if all < most then all else most
  {
    if Blank(project) {
      return Err("project id required");
    }
    var limit := PageSize(f.limit);
    var s := BuildStatement(project, f, l);
    var rows := Execute(table, s, l);
    ExecuteLists(table, s, project, f, l);
    var page := Truncate(rows, limit, Listing(table, project, f, l));
    return Ok(page);
  }

  lemma ExecuteLists(table: seq<Event>, s: Statement, project: string, f: Filter, l: Lowering)
    requires Bound(s.query.args, s.limit) == Some(Count(PageSize(f.limit) + 1))
    requires forall e :: Accepts(s.query, e, l) <==> Matches(project, f, l, e)
    ensures Execute(table, s, l) == Take(Listing(table, project, f, l), PageSize(f.limit) + 1)
  {
    FilterCongruent(table, e => Accepts(s.query, e, l), Describes(project, f, l));
  }

  /** Collect the fetched rows; one more than the page tells that the listing goes on, and becomes the cursor. */
  method Truncate(rows: seq<Event>, limit: nat, ghost listing: seq<Event>) returns (page: Page)
    requires limit > 0 && rows == Take(listing, limit + 1)
    ensures page == PageFrom(listing, limit)
    ensures page.events == Take(listing, limit)
    ensures |listing| <= limit ==> page.events == listing && page.next == ""
  {
    var events := [];
    for i := 0 to |rows|
      invariant events == rows[..i]
    {
      events := events + [rows[i]];
    }
    assert events == rows;
    page := Page(events, "");
    if |events| > limit {
      var last := events[limit];
      page := Page(events[..limit], EncodeCursor(last.at, last.id));
    }
  }
}
