/**
 BillingUsage records of kubeop-operator/controllers/usagewriter_controller.go: their derived
 names, and the upserts with which Reconcile writes one record per subject.
 */
module BillingNames {
  import opened Text
  import opened Names
  import Timestamps

  datatype SubjectType = OfTenant | OfProject | OfApp

  function TypeName(t: SubjectType): string {
    match t
    case OfTenant => "tenant"
    case OfProject => "project"
    case OfApp => "app"
  }

  function ReplaceSeparators(s: string): (r: string)
    ensures |r| == |s| && forall i :: 0 <= i < |s| ==> r[i] == if s[i] in "/:_." then '-' else s[i]
  {
    seq(|s|, i requires 0 <= i < |s| => if s[i] in "/:_." then '-' else s[i])
  }

  function Named(collapsed: string): string {
    var trimmed := Trim(collapsed, IsDash);
    if trimmed == "" then "subject" else trimmed
  }

  function SanitizeName(value: string, uni: char -> char): string {
    Named(Collapse(ReplaceSeparators(ToLower(TrimSpace(value), uni)), false))
  }

  /** The builder loop writes what Collapse describes: one dash for a run of other characters. */
  method Sanitize(value: string, uni: char -> char) returns (r: string)
    ensures r == SanitizeName(value, uni)
  {
    var v := ReplaceSeparators(ToLower(TrimSpace(value), uni));
    var builder, lastDash := "", false;
    for i := 0 to |v|
      invariant builder + Collapse(v[i..], lastDash) == Collapse(v, false)
    {
      assert v[i..][1..] == v[i + 1..] && v[i..][0] == v[i];
      ghost var rest := v[i..];
      if IsAlnum(v[i]) {
        assert builder + ([v[i]] + Collapse(rest[1..], false)) == (builder + [v[i]]) + Collapse(rest[1..], false);
        builder := builder + [v[i]];
        lastDash := false;
      } else if !lastDash {
        assert builder + ("-" + Collapse(rest[1..], true)) == (builder + "-") + Collapse(rest[1..], true);
        builder := builder + "-";
        lastDash := true;
      }
    }
    assert v[|v|..] == "" && builder + "" == builder;
    r := Trim(builder, IsDash);
    if r == "" {
      r := "subject";
    }
  }

  /** Lower-case letters and digits separated by single dashes, never empty. */
  predicate Clean(s: string) { s != "" && SlugShaped(s) && NoDoubleDash(s) }

  /** Trimming dashes leaves a part of the text. */
  lemma TrimmedFrom(s: string) returns (from: nat)
    ensures from + |Trim(s, IsDash)| <= |s|
    ensures forall i :: 0 <= i < |Trim(s, IsDash)| ==> Trim(s, IsDash)[i] == s[from + i]
  {
    var l := TrimLeft(s, IsDash);
    TrimLeftShape(s, IsDash);
    TrimRightShape(l, IsDash);
    from := |s| - |l|;
  }

  lemma NamedIsClean(collapsed: string)
    requires forall i :: 0 <= i < |collapsed| ==> IsAlnum(collapsed[i]) || collapsed[i] == '-'
    requires NoDoubleDash(collapsed)
    ensures Clean(Named(collapsed))
    ensures |Named(collapsed)| <= |collapsed| || Named(collapsed) == "subject"
    ensures Clean(collapsed) ==> Named(collapsed) == collapsed
  {
    TrimShape(collapsed, IsDash);
    var t := Trim(collapsed, IsDash);
    var from := TrimmedFrom(collapsed);
    assert t == "" || (IsAlnum(t[0]) && IsAlnum(t[|t| - 1]));
  }

  lemma SanitizedIsClean(value: string, uni: char -> char)
    ensures Clean(SanitizeName(value, uni))
    ensures |SanitizeName(value, uni)| <= |value| || SanitizeName(value, uni) == "subject"
  {
    TrimShape(value, IsSpace);
    NamedIsClean(Collapse(ReplaceSeparators(ToLower(TrimSpace(value), uni)), false));
  }

  /** The name keeps exactly the letters and digits of the lowered value, in order, or is the fallback for none. */
  lemma SanitizedKeepsAlnums(value: string, uni: char -> char)
    ensures var letters := Alnums(ToLower(TrimSpace(value), uni));
            if letters == "" then SanitizeName(value, uni) == "subject" else Alnums(SanitizeName(value, uni)) == letters
  {
    var v := ToLower(TrimSpace(value), uni);
    var collapsed := Collapse(ReplaceSeparators(v), false);
    SameAlnums(v, ReplaceSeparators(v));
    CollapseKeepsAlnums(ReplaceSeparators(v), false);
    TrimKeepsAlnums(collapsed);
    NamedIsClean(collapsed);
    AlnumsNone(Trim(collapsed, IsDash));
    assert Trim(collapsed, IsDash) != "" ==> IsAlnum(Trim(collapsed, IsDash)[0]);
  }

  lemma {:induction false} SameAlnums(a: string, b: string)
    requires |a| == |b|
    requires forall i :: 0 <= i < |a| ==> IsAlnum(a[i]) == IsAlnum(b[i]) && (IsAlnum(a[i]) ==> a[i] == b[i])
    ensures Alnums(a) == Alnums(b)
  {
    if a != "" {
      SameAlnums(a[1..], b[1..]);
    }
  }

  /** Clean text is its own name, so sanitizing twice changes nothing. */
  lemma CleanIsFixed(s: string, uni: char -> char)
    requires Clean(s)
    ensures SanitizeName(s, uni) == s
  {
    assert Bare(s, IsSpace);
    TrimShape(s, IsSpace);
    assert ToLower(s, uni) == s;
    assert ReplaceSeparators(s) == s;
    CollapseFixes(s, false);
    NamedIsClean(s);
  }

  /** The hour a usage record covers. */
  datatype Window = Window(year: nat, month: nat, day: nat, hour: nat)

  predicate ValidWindow(w: Window) { Timestamps.Valid(Timestamps.Stamp(w.year, w.month, w.day, w.hour, 0, 0, 0)) }

  function WindowText(w: Window): string {
    Timestamps.Digits(w.year, 4) + "-" + Timestamps.Digits(w.month, 2) + "-" + Timestamps.Digits(w.day, 2) + "T" +
      Timestamps.Digits(w.hour, 2)
  }

  /** The text lower-cased: the T is the only letter, and there is no colon to replace. */
  function SanitizeWindow(w: Window): string {
    Timestamps.Digits(w.year, 4) + "-" + Timestamps.Digits(w.month, 2) + "-" + Timestamps.Digits(w.day, 2) + "t" +
      Timestamps.Digits(w.hour, 2)
  }

  const WINDOW_LENGTH := 13

  lemma SanitizeWindowShape(w: Window, uni: char -> char)
    ensures SanitizeWindow(w) == ToLower(WindowText(w), uni) && ':' !in WindowText(w)
    ensures |SanitizeWindow(w)| == WINDOW_LENGTH && SlugShaped(SanitizeWindow(w))
  {
    WindowShape(Timestamps.Digits(w.year, 4), Timestamps.Digits(w.month, 2), Timestamps.Digits(w.day, 2),
                Timestamps.Digits(w.hour, 2), uni);
  }

  lemma WindowShape(year: string, month: string, day: string, hour: string, uni: char -> char)
    requires |year| == 4 && |month| == 2 && |day| == 2 && |hour| == 2
    requires Timestamps.AllDigits(year) && Timestamps.AllDigits(month)
    requires Timestamps.AllDigits(day) && Timestamps.AllDigits(hour)
    ensures var text, s := year + "-" + month + "-" + day + "T" + hour, year + "-" + month + "-" + day + "t" + hour;
            s == ToLower(text, uni) && ':' !in text && |s| == WINDOW_LENGTH && SlugShaped(s)
  {
    var date := year + "-" + month + "-" + day;
    var text, s := date + "T" + hour, date + "t" + hour;
    assert forall i :: 0 <= i < 10 ==> Timestamps.IsDigit(date[i]) || date[i] == '-';
    assert forall i :: 0 <= i < 13 ==> text[i] == if i < 10 then date[i] else if i == 10 then 'T' else hour[i - 11];
    assert forall i :: 0 <= i < 13 ==> s[i] == if i == 10 then 't' else text[i];
  }

  /** Windows are told apart by their text. */
  lemma WindowTextIsExact(w: Window, v: Window)
    requires ValidWindow(w) && ValidWindow(v)
    ensures SanitizeWindow(w) == SanitizeWindow(v) <==> w == v
  {
    if SanitizeWindow(w) == SanitizeWindow(v) {
      var s := SanitizeWindow(w);
      WindowParts(w);
      WindowParts(v);
    }
  }

  lemma WindowLayout(year: string, month: string, day: string, hour: string)
    requires |year| == 4 && |month| == 2 && |day| == 2 && |hour| == 2
    ensures var s := year + "-" + month + "-" + day + "t" + hour;
            |s| == WINDOW_LENGTH && s[0..4] == year && s[5..7] == month && s[8..10] == day && s[11..13] == hour
  {
  }

  lemma WindowParts(w: Window)
    requires ValidWindow(w)
    ensures var s := SanitizeWindow(w);
            && |s| == WINDOW_LENGTH
            && Timestamps.Number(s[0..4]) == w.year && Timestamps.Number(s[5..7]) == w.month
            && Timestamps.Number(s[8..10]) == w.day && Timestamps.Number(s[11..13]) == w.hour
  {
    WindowLayout(Timestamps.Digits(w.year, 4), Timestamps.Digits(w.month, 2), Timestamps.Digits(w.day, 2),
                 Timestamps.Digits(w.hour, 2));
    assert Timestamps.Pow10(2) == 100 && Timestamps.Pow10(4) == 10000 by {
      assert Timestamps.Pow10(1) == 10 && Timestamps.Pow10(3) == 1000;
    }
    Timestamps.NumberOfDigits(w.year, 4);
    Timestamps.NumberOfDigits(w.month, 2);
    Timestamps.NumberOfDigits(w.day, 2);
    Timestamps.NumberOfDigits(w.hour, 2);
  }

  function BaseName(t: SubjectType, ref: string, w: Window, uni: char -> char): string {
    TypeName(t) + "-" + SanitizeName(ref, uni) + "-" + SanitizeWindow(w)
  }

  function Shortened(base: string, uni: char -> char, sha1: string -> Digest): string {
    if |base| <= MAX_LABEL then base
    else
      var suffix := Hex(sha1(base)[..4]);
      var room := MAX_LABEL - |suffix| - 1;
      var keep := if room < 1 then 1 else room;
      var prefix := SanitizeName(base[..keep], uni);
      (if prefix == "" then "usage" else prefix) + "-" + suffix
  }

  function BuildBillingUsageName(t: SubjectType, ref: string, w: Window, uni: char -> char,
                                 sha1: string -> Digest): string {
    Shortened(BaseName(t, ref, w, uni), uni, sha1)
  }

  lemma JoinedShape(a: string, b: string)
    requires a != "" && SlugShaped(a) && b != "" && SlugShaped(b)
    ensures SlugShaped(a + "-" + b)
  {
  }

  lemma BaseNameShape(t: SubjectType, ref: string, w: Window, uni: char -> char)
    ensures SlugShaped(BaseName(t, ref, w, uni)) && BaseName(t, ref, w, uni) != ""
  {
    SanitizedIsClean(ref, uni);
    SanitizeWindowShape(w, uni);
    JoinedShape(TypeName(t), SanitizeName(ref, uni));
    JoinedShape(TypeName(t) + "-" + SanitizeName(ref, uni), SanitizeWindow(w));
  }

  lemma ShortenedIsLabel(base: string, uni: char -> char, sha1: string -> Digest)
    requires base != "" && SlugShaped(base)
    ensures IsDnsLabel(Shortened(base, uni, sha1))
  {
    if |base| > MAX_LABEL {
      var suffix := Hex(sha1(base)[..4]);
      assert |suffix| == 8 && SlugShaped(suffix);
      SanitizedIsClean(base[..54], uni);
      JoinedIsLabel(SanitizeName(base[..54], uni), suffix);
    }
  }

  /** The name of every usage record is a DNS label of at most 63 characters. */
  lemma BillingNameIsLabel(t: SubjectType, ref: string, w: Window, uni: char -> char, sha1: string -> Digest)
    ensures IsDnsLabel(BuildBillingUsageName(t, ref, w, uni, sha1))
  {
    BaseNameShape(t, ref, w, uni);
    ShortenedIsLabel(BaseName(t, ref, w, uni), uni, sha1);
  }

  /**
   A name that is too long ends in the first four bytes of its digest, so two of them can only
   coincide when their digests agree there.
   */
  lemma ShortenedTellsApart(base: string, other: string, uni: char -> char, sha1: string -> Digest)
    requires |base| > MAX_LABEL && |other| > MAX_LABEL
    requires Shortened(base, uni, sha1) == Shortened(other, uni, sha1)
    ensures sha1(base)[..4] == sha1(other)[..4]
  {
    var name := Shortened(base, uni, sha1);
    EndsInSuffix(name, if SanitizeName(base[..54], uni) == "" then "usage" else SanitizeName(base[..54], uni),
                 Hex(sha1(base)[..4]));
    EndsInSuffix(name, if SanitizeName(other[..54], uni) == "" then "usage" else SanitizeName(other[..54], uni),
                 Hex(sha1(other)[..4]));
    HexIsInjective(sha1(base)[..4], sha1(other)[..4]);
  }

  lemma EndsInSuffix(name: string, prefix: string, suffix: string)
    requires |suffix| == 8 && name == prefix + "-" + suffix
    ensures |name| >= 8 && name[|name| - 8..] == suffix
  {
  }

  /** What a short name is: the type, the reference and the hour. */
  lemma ShortNameIs(ref: string, w: Window, uni: char -> char, sha1: string -> Digest)
    requires Clean(ref) && |ref| <= 40
    ensures BuildBillingUsageName(OfTenant, ref, w, uni, sha1) == "tenant" + "-" + ref + "-" + SanitizeWindow(w)
    ensures BuildBillingUsageName(OfProject, ref, w, uni, sha1) == "project" + "-" + ref + "-" + SanitizeWindow(w)
    ensures BuildBillingUsageName(OfApp, ref, w, uni, sha1) == "app" + "-" + ref + "-" + SanitizeWindow(w)
  {
    CleanIsFixed(ref, uni);
    SanitizeWindowShape(w, uni);
  }

  /** How the hour from 13:00 on 1 May 2024 is written, in records and in names. */
  lemma WrittenWindow()
    ensures WindowText(Window(2024, 5, 1, 13)) == "2024-05-01T13"
    ensures SanitizeWindow(Window(2024, 5, 1, 13)) == "2024-05-01t13"
  {
    Timestamps.WrittenDigits();
  }

  lemma TypePrefixDiffers(t: SubjectType, u: SubjectType, a: string, b: string)
    requires TypeName(t) + "-" + a == TypeName(u) + "-" + b
    ensures t == u && a == b
  {
    var x, y := TypeName(t), TypeName(u);
    var s := x + "-" + a;
    assert s[|x|] == '-' && s == y + "-" + b && s[|y|] == '-';
    assert forall i :: 0 <= i < |x| ==> s[i] == x[i] != '-';
    assert forall i :: 0 <= i < |y| ==> s[i] == y[i] != '-';
    assert |x| == |y|;
    assert s[|x| + 1..] == a && s[|y| + 1..] == b;
  }

  lemma SameSuffixLength(a: string, b: string, w: string, v: string)
    requires |w| == |v| && a + "-" + w == b + "-" + v
    ensures a == b && w == v
  {
    var s := a + "-" + w;
    assert s[|a| + 1..] == w && s[|b| + 1..] == v;
    assert s[..|a|] == a && s[..|b|] == b;
  }

  /**
   Names that were not shortened coincide exactly when the subject type, the sanitized reference
   and the window coincide.
   */
  lemma NamesCoincideIff(t: SubjectType, ref: string, w: Window, u: SubjectType, other: string, v: Window,
                         uni: char -> char, sha1: string -> Digest)
    requires ValidWindow(w) && ValidWindow(v)
    requires |BaseName(t, ref, w, uni)| <= MAX_LABEL && |BaseName(u, other, v, uni)| <= MAX_LABEL
    ensures BuildBillingUsageName(t, ref, w, uni, sha1) == BuildBillingUsageName(u, other, v, uni, sha1) <==>
            t == u && SanitizeName(ref, uni) == SanitizeName(other, uni) && w == v
  {
    SanitizeWindowShape(w, uni);
    SanitizeWindowShape(v, uni);
    WindowTextIsExact(w, v);
    PartsCoincide(t, SanitizeName(ref, uni), SanitizeWindow(w), u, SanitizeName(other, uni), SanitizeWindow(v));
  }

  lemma PartsCoincide(t: SubjectType, a: string, x: string, u: SubjectType, b: string, y: string)
    requires |x| == |y|
    ensures TypeName(t) + "-" + a + "-" + x == TypeName(u) + "-" + b + "-" + y <==> t == u && a == b && x == y
  {
    assert TypeName(t) + "-" + a + "-" + x == TypeName(t) + "-" + (a + "-" + x);
    assert TypeName(u) + "-" + b + "-" + y == TypeName(u) + "-" + (b + "-" + y);
    if TypeName(t) + "-" + a + "-" + x == TypeName(u) + "-" + b + "-" + y {
      TypePrefixDiffers(t, u, a + "-" + x, b + "-" + y);
      SameSuffixLength(a, b, x, y);
    }
  }

  /** Different references do share a name: a dot and a dash are sanitized alike. */
  lemma DotAndDashCollide(t: SubjectType, a: string, b: string, w: Window, uni: char -> char, sha1: string -> Digest)
    requires Clean(a + "-" + b) && a != "" && b != ""
    ensures BuildBillingUsageName(t, a + "." + b, w, uni, sha1) == BuildBillingUsageName(t, a + "-" + b, w, uni, sha1)
  {
    var dot, dash := a + "." + b, a + "-" + b;
    assert forall i :: 0 <= i < |dot| ==> if i == |a| then dot[i] == '.' && dash[i] == '-' else dot[i] == dash[i];
    assert dot[0] == dash[0] && dot[|dot| - 1] == dash[|dash| - 1];
    assert Bare(dot, IsSpace) && Bare(dash, IsSpace);
    TrimShape(dot, IsSpace);
    TrimShape(dash, IsSpace);
    assert ToLower(dot, uni) == dot && ToLower(dash, uni) == dash;
    assert ReplaceSeparators(dot) == dash == ReplaceSeparators(dash);
  }
}

/** The upserts of Reconcile: one BillingUsage per subject and window, found by its derived name. */
module BillingRecords {
  import opened Wrappers
  import opened UsageSums
  import opened Enumerations
  import opened BillingNames
  import Metering
  import Names

  datatype Subject = Subject(stype: SubjectType, ref: string, totals: Usage)

  datatype Record = Record(stype: SubjectType, ref: string, window: string, meters: map<string, int>)

  const METERS := {"cpu", "memory", "storage", "egress", "lbHours"}

  /** The fields that are set; other meters of an existing record are kept. */
  function Overwrite(old_: Option<Record>, s: Subject, window: string): Record {
    var meters := if old_.Some? then old_.value.meters else map[];
    Record(s.stype, s.ref, window,
           meters["cpu" := s.totals.cpu]["memory" := s.totals.memory]["storage" := s.totals.storage]
                 ["egress" := s.totals.egress]["lbHours" := s.totals.lbHours])
  }

  type Records = map<string, Record>

  function Lookup(rs: Records, name: string): Option<Record> { if name in rs then Some(rs[name]) else None }

  function Upsert(rs: Records, s: Subject, name: string, window: string): Records {
    rs[name := Overwrite(Lookup(rs, name), s, window)]
  }

  function UpsertAll(rs: Records, ss: seq<Subject>, nameOf: Subject -> string, window: string): Records {
    if ss == [] then rs
    else
      var last := ss[|ss| - 1];
      Upsert(UpsertAll(rs, ss[..|ss| - 1], nameOf, window), last, nameOf(last), window)
  }

  /** The record tells the subject's own numbers. */
  ghost predicate Shows(r: Record, s: Subject, window: string) {
    && r.stype == s.stype && r.ref == s.ref && r.window == window
    && "cpu" in r.meters && r.meters["cpu"] == s.totals.cpu
    && "memory" in r.meters && r.meters["memory"] == s.totals.memory
    && "storage" in r.meters && r.meters["storage"] == s.totals.storage
    && "egress" in r.meters && r.meters["egress"] == s.totals.egress
    && "lbHours" in r.meters && r.meters["lbHours"] == s.totals.lbHours
  }

  ghost predicate Uses(ss: seq<Subject>, nameOf: Subject -> string, name: string) {
    exists i :: 0 <= i < |ss| && nameOf(ss[i]) == name
  }

  /** The last subject with a name. */
  ghost function LastWith(ss: seq<Subject>, nameOf: Subject -> string, name: string): Subject
    requires Uses(ss, nameOf, name)
  {
    if nameOf(ss[|ss| - 1]) == name then ss[|ss| - 1]
    else
      UsesRest(ss, nameOf, name);
      LastWith(ss[..|ss| - 1], nameOf, name)
  }

  lemma UsesRest(ss: seq<Subject>, nameOf: Subject -> string, name: string)
    requires ss != []
    ensures Uses(ss, nameOf, name) <==> nameOf(ss[|ss| - 1]) == name || Uses(ss[..|ss| - 1], nameOf, name)
  {
    var rest := ss[..|ss| - 1];
    if i :| 0 <= i < |rest| && nameOf(rest[i]) == name {
      assert nameOf(ss[i]) == name;
    }
    if i :| 0 <= i < |ss| && nameOf(ss[i]) == name {
      assert i < |rest| ==> nameOf(rest[i]) == name;
    }
  }

  lemma OverwriteShows(old_: Option<Record>, s: Subject, t: Subject, window: string)
    ensures Shows(Overwrite(old_, s, window), t, window) <==> s == t
    ensures Overwrite(Some(Overwrite(old_, s, window)), t, window) == Overwrite(old_, t, window)
  {
  }

  /** A name holds what its last subject wrote over the previous record, and unused names are untouched. */
  lemma {:induction false} UpsertAllAt(rs: Records, ss: seq<Subject>, nameOf: Subject -> string, window: string,
                                       name: string)
    ensures Lookup(UpsertAll(rs, ss, nameOf, window), name) ==
            if Uses(ss, nameOf, name) then Some(Overwrite(Lookup(rs, name), LastWith(ss, nameOf, name), window))
            else Lookup(rs, name)
    decreases |ss|
  {
    if ss != [] {
      var rest, last := ss[..|ss| - 1], ss[|ss| - 1];
      UpsertAllAt(rs, rest, nameOf, window, name);
      UsesRest(ss, nameOf, name);
      if nameOf(last) == name && Uses(rest, nameOf, name) {
        OverwriteShows(Lookup(rs, name), LastWith(rest, nameOf, name), last, window);
      }
    }
  }

  /** Writing the same subjects again changes nothing, whatever their names are. */
  lemma UpsertAllIdempotent(rs: Records, ss: seq<Subject>, nameOf: Subject -> string, window: string)
    ensures UpsertAll(UpsertAll(rs, ss, nameOf, window), ss, nameOf, window) == UpsertAll(rs, ss, nameOf, window)
  {
    var once := UpsertAll(rs, ss, nameOf, window);
    var twice := UpsertAll(once, ss, nameOf, window);
    forall name ensures Lookup(twice, name) == Lookup(once, name) {
      UpsertAllAt(rs, ss, nameOf, window, name);
      UpsertAllAt(once, ss, nameOf, window, name);
      if Uses(ss, nameOf, name) {
        OverwriteShows(Lookup(rs, name), LastWith(ss, nameOf, name), LastWith(ss, nameOf, name), window);
      }
    }
    SameLookups(twice, once);
  }

  lemma SameLookups(a: Records, b: Records)
    requires forall name :: Lookup(a, name) == Lookup(b, name)
    ensures a == b
  {
    forall name ensures name in a <==> name in b {
      assert Lookup(a, name) == Lookup(b, name);
    }
    forall name | name in a ensures a[name] == b[name] {
      assert Lookup(a, name) == Lookup(b, name);
    }
  }

  lemma {:induction false} LastWithIsMember(ss: seq<Subject>, nameOf: Subject -> string, name: string)
    requires Uses(ss, nameOf, name)
    ensures exists i :: 0 <= i < |ss| && ss[i] == LastWith(ss, nameOf, name) && nameOf(ss[i]) == name
    decreases |ss|
  {
    UsesRest(ss, nameOf, name);
    if nameOf(ss[|ss| - 1]) != name {
      LastWithIsMember(ss[..|ss| - 1], nameOf, name);
    }
  }

  /** The subject finds its own numbers under its name. */
  ghost predicate Shown(rs: Records, s: Subject, nameOf: Subject -> string, window: string) {
    nameOf(s) in rs && Shows(rs[nameOf(s)], s, window)
  }

  ghost predicate NamesDetermine(ss: seq<Subject>, nameOf: Subject -> string) {
    forall i, j :: 0 <= i < |ss| && 0 <= j < |ss| && nameOf(ss[i]) == nameOf(ss[j]) ==> ss[i] == ss[j]
  }

  lemma ShownIffLast(rs: Records, ss: seq<Subject>, nameOf: Subject -> string, window: string, i: nat)
    requires i < |ss|
    ensures Uses(ss, nameOf, nameOf(ss[i]))
    ensures Shown(UpsertAll(rs, ss, nameOf, window), ss[i], nameOf, window) <==>
      ss[i] == LastWith(ss, nameOf, nameOf(ss[i]))
  {
    var name := nameOf(ss[i]);
    assert Uses(ss, nameOf, name);
    UpsertAllAt(rs, ss, nameOf, window, name);
    OverwriteShows(Lookup(rs, name), LastWith(ss, nameOf, name), ss[i], window);
  }

  /**
   After a pass every subject finds its own numbers under its name if and only if subjects with
   the same name are the same.
   */
  lemma AllShownIff(rs: Records, ss: seq<Subject>, nameOf: Subject -> string, window: string)
    ensures (forall i :: 0 <= i < |ss| ==> Shown(UpsertAll(rs, ss, nameOf, window), ss[i], nameOf, window)) <==>
      NamesDetermine(ss, nameOf)
  {
    var after := UpsertAll(rs, ss, nameOf, window);
    if NamesDetermine(ss, nameOf) {
      forall i | 0 <= i < |ss| ensures Shown(after, ss[i], nameOf, window) {
        ShownIffLast(rs, ss, nameOf, window, i);
        LastWithIsMember(ss, nameOf, nameOf(ss[i]));
      }
    } else {
      var i, j :| 0 <= i < |ss| && 0 <= j < |ss| && nameOf(ss[i]) == nameOf(ss[j]) && ss[i] != ss[j];
      ShownIffLast(rs, ss, nameOf, window, i);
      ShownIffLast(rs, ss, nameOf, window, j);
      assert !Shown(after, ss[i], nameOf, window) || !Shown(after, ss[j], nameOf, window);
    }
  }

  // ---------------------------------------------------------------- Reconcile

  /** The listed objects: tenants by name, projects and apps by namespace and name. */
  datatype Listing = Listing(tenants: seq<string>, projects: seq<(string, string)>, apps: seq<(string, string)>)

  function TenantSubjects(names: seq<string>, totals: map<string, Usage>): seq<Subject> {
    if names == [] then []
    else
      var last := names[|names| - 1];
      TenantSubjects(names[..|names| - 1], totals) + [Subject(OfTenant, last, Get(totals, last))]
  }

  function KeyedSubjects(t: SubjectType, keys: seq<(string, string)>, totals: map<string, Usage>): seq<Subject> {
    if keys == [] then []
    else
      var k := keys[|keys| - 1];
      var ref := Metering.NamespaceKey(k.0, k.1);
      KeyedSubjects(t, keys[..|keys| - 1], totals) + [Subject(t, ref, Get(totals, ref))]
  }

  function Subjects(l: Listing, tenants: map<string, Usage>, projects: map<string, Usage>,
                    apps: map<string, Usage>): seq<Subject> {
    TenantSubjects(l.tenants, tenants) + KeyedSubjects(OfProject, l.projects, projects) +
      KeyedSubjects(OfApp, l.apps, apps)
  }

  /** Who is written: the listed tenants, projects and apps, each with its own table's total or zeros. */
  lemma SubjectsAre(l: Listing, tenants: map<string, Usage>, projects: map<string, Usage>, apps: map<string, Usage>,
                    s: Subject)
    ensures s in Subjects(l, tenants, projects, apps) <==>
            || (s.stype == OfTenant && s.ref in l.tenants && s.totals == Get(tenants, s.ref))
            || (s.stype == OfProject && s.totals == Get(projects, s.ref) &&
                exists k :: k in l.projects && s.ref == Metering.NamespaceKey(k.0, k.1))
            || (s.stype == OfApp && s.totals == Get(apps, s.ref) &&
                exists k :: k in l.apps && s.ref == Metering.NamespaceKey(k.0, k.1))
  {
    TenantSubjectsAre(l.tenants, tenants, s);
    KeyedSubjectsAre(OfProject, l.projects, projects, s);
    KeyedSubjectsAre(OfApp, l.apps, apps, s);
  }

  lemma {:induction false} TenantSubjectsAre(names: seq<string>, totals: map<string, Usage>, s: Subject)
    ensures s in TenantSubjects(names, totals) <==>
            s.stype == OfTenant && s.ref in names && s.totals == Get(totals, s.ref)
  {
    if names != [] {
      var init, last := names[..|names| - 1], names[|names| - 1];
      TenantSubjectsAre(init, totals, s);
      assert names == init + [last];
    }
  }

  lemma {:induction false} KeyedSubjectsAre(t: SubjectType, keys: seq<(string, string)>, totals: map<string, Usage>,
                                            s: Subject)
    ensures s in KeyedSubjects(t, keys, totals) <==>
            && s.stype == t && s.totals == Get(totals, s.ref)
            && exists k :: k in keys && s.ref == Metering.NamespaceKey(k.0, k.1)
  {
    if keys != [] {
      var init, last := keys[..|keys| - 1], keys[|keys| - 1];
      KeyedSubjectsAre(t, init, totals, s);
      assert keys == init + [last];
    }
  }

  lemma UpsertAllAppend(rs: Records, ss: seq<Subject>, s: Subject, nameOf: Subject -> string, window: string)
    ensures UpsertAll(rs, ss + [s], nameOf, window) == Upsert(UpsertAll(rs, ss, nameOf, window), s, nameOf(s), window)
  {
    assert (ss + [s])[..|ss|] == ss;
  }

  lemma {:induction false} UpsertAllConcat(rs: Records, a: seq<Subject>, b: seq<Subject>, nameOf: Subject -> string,
                                           window: string)
    ensures UpsertAll(rs, a + b, nameOf, window) == UpsertAll(UpsertAll(rs, a, nameOf, window), b, nameOf, window)
    decreases |b|
  {
    if b == [] {
      assert a + b == a;
    } else {
      var rest, last := b[..|b| - 1], b[|b| - 1];
      UpsertAllConcat(rs, a, rest, nameOf, window);
      assert a + b == (a + rest) + [last];
      UpsertAllAppend(rs, a + rest, last, nameOf, window);
    }
  }

  /** The three tables a reconcile adds up from its samples. */
  ghost predicate Aggregates(samples: seq<Metering.Sample>, tenants: map<string, Usage>, projects: map<string, Usage>,
                             apps: map<string, Usage>) {
    && Groups(tenants, samples, Metering.Counted, Metering.TenantKey, Metering.SampleUsage)
    && Groups(projects, samples, Metering.Counted, Metering.ProjectKey, Metering.SampleUsage)
    && Groups(apps, samples, Metering.Counted, Metering.AppKey, Metering.SampleUsage)
  }

  /**
   From containers to bills: with names that tell subjects apart, the record of a listed tenant shows
   the cpu and memory of exactly the pods whose app was first seen with that tenant.
   */
  lemma TenantRecordShowsPods(rs: Records, namespaces: seq<Metering.Namespace>, order: seq<string>, l: Listing,
                              tenants: map<string, Usage>, projects: map<string, Usage>, apps: map<string, Usage>,
                              nameOf: Subject -> string, window: string, t: string)
    requires Enumerates(order, Metering.Collect(Metering.Entries(namespaces)).Keys)
    requires var m := Metering.Collect(Metering.Entries(namespaces));
             Aggregates(Metering.SamplesOf(m, order), tenants, projects, apps)
    requires NamesDetermine(Subjects(l, tenants, projects, apps), nameOf) && t in l.tenants
    ensures var es := Metering.Entries(namespaces);
            var name := nameOf(Subject(OfTenant, t, Get(tenants, t)));
            var after := UpsertAll(rs, Subjects(l, tenants, projects, apps), nameOf, window);
            var mine := Metering.BilledTo(es, Metering.TenantOf, t);
            && name in after && after[name].ref == t && after[name].window == window
            && "cpu" in after[name].meters && "memory" in after[name].meters
            && after[name].meters["cpu"] == SumIf(es, mine, Metering.UsageOf, Cpu)
            && after[name].meters["memory"] == SumIf(es, mine, Metering.UsageOf, Memory)
  {
    var s, ss := Subject(OfTenant, t, Get(tenants, t)), Subjects(l, tenants, projects, apps);
    SubjectsAre(l, tenants, projects, apps, s);
    var i :| 0 <= i < |ss| && ss[i] == s;
    AllShownIff(rs, ss, nameOf, window);
    assert Shown(UpsertAll(rs, ss, nameOf, window), ss[i], nameOf, window);
    Metering.EntriesLabelled(namespaces);
    Metering.KeysReadOwners();
    var es := Metering.Entries(namespaces);
    Metering.TotalIsBilledUsage(es, order, tenants, Metering.TenantKey, Metering.TenantOf, t, Cpu);
    Metering.TotalIsBilledUsage(es, order, tenants, Metering.TenantKey, Metering.TenantOf, t, Memory);
  }

  /** Reconciling again with the same samples, objects and window changes no record. */
  lemma RepeatedReconcile(rs: Records, samples: seq<Metering.Sample>, l: Listing,
                          nameOf: Subject -> string, window: string,
                          tenants: map<string, Usage>, projects: map<string, Usage>, apps: map<string, Usage>,
                          tenants': map<string, Usage>, projects': map<string, Usage>, apps': map<string, Usage>)
    requires Aggregates(samples, tenants, projects, apps) && Aggregates(samples, tenants', projects', apps')
    ensures var once := UpsertAll(rs, Subjects(l, tenants, projects, apps), nameOf, window);
            UpsertAll(once, Subjects(l, tenants', projects', apps'), nameOf, window) == once
  {
    GroupsUnique(tenants, tenants', samples, Metering.Counted, Metering.TenantKey, Metering.SampleUsage);
    GroupsUnique(projects, projects', samples, Metering.Counted, Metering.ProjectKey, Metering.SampleUsage);
    GroupsUnique(apps, apps', samples, Metering.Counted, Metering.AppKey, Metering.SampleUsage);
    UpsertAllIdempotent(rs, Subjects(l, tenants, projects, apps), nameOf, window);
  }

  class UsageWriter {
    const uni: char -> char
    const sha1: string -> Names.Digest
    var records: Records

    constructor (uni: char -> char, sha1: string -> Names.Digest)
      ensures records == map[]
    {
      this.uni, this.sha1 := uni, sha1;
      records := map[];
    }

    function NameOf(w: Window): Subject -> string {
      (s: Subject) => BuildBillingUsageName(s.stype, s.ref, w, uni, sha1)
    }

    /** Find the record by its derived name or start one, then set its fields one by one. */
    method UpsertBillingUsage(s: Subject, nameOf: Subject -> string, window: string)
      modifies this
      ensures records == Upsert(old(records), s, nameOf(s), window)
      ensures nameOf(s) in records && Shows(records[nameOf(s)], s, window)
      ensures forall n :: n != nameOf(s) ==> Lookup(records, n) == Lookup(old(records), n)
      ensures forall m :: nameOf(s) in old(records) && m in old(records)[nameOf(s)].meters && m !in METERS ==>
                m in records[nameOf(s)].meters && records[nameOf(s)].meters[m] == old(records)[nameOf(s)].meters[m]
    {
      var name := nameOf(s);
      var meters: map<string, int> := map[];
      if name in records {
        meters := records[name].meters;
      }
      meters := meters["cpu" := s.totals.cpu];
      meters := meters["memory" := s.totals.memory];
      meters := meters["storage" := s.totals.storage];
      meters := meters["egress" := s.totals.egress];
      meters := meters["lbHours" := s.totals.lbHours];
      records := records[name := Record(s.stype, s.ref, window, meters)];
    }

    method UpsertKeyed(t: SubjectType, keys: seq<(string, string)>, totals: map<string, Usage>,
                       nameOf: Subject -> string, window: string)
      modifies this
      ensures records == UpsertAll(old(records), KeyedSubjects(t, keys, totals), nameOf, window)
    {
      for i := 0 to |keys|
        invariant records == UpsertAll(old(records), KeyedSubjects(t, keys[..i], totals), nameOf, window)
      {
        var ref := Metering.NamespaceKey(keys[i].0, keys[i].1);
        var s := Subject(t, ref, Get(totals, ref));
        UpsertBillingUsage(s, nameOf, window);
        assert keys[..i + 1][..i] == keys[..i];
        UpsertAllAppend(old(records), KeyedSubjects(t, keys[..i], totals), s, nameOf, window);
      }
      assert keys[..|keys|] == keys;
    }

    method UpsertTenants(names: seq<string>, totals: map<string, Usage>, nameOf: Subject -> string, window: string)
      modifies this
      ensures records == UpsertAll(old(records), TenantSubjects(names, totals), nameOf, window)
    {
      for i := 0 to |names|
        invariant records == UpsertAll(old(records), TenantSubjects(names[..i], totals), nameOf, window)
      {
        var s := Subject(OfTenant, names[i], Get(totals, names[i]));
        UpsertBillingUsage(s, nameOf, window);
        assert names[..i + 1][..i] == names[..i];
        UpsertAllAppend(old(records), TenantSubjects(names[..i], totals), s, nameOf, window);
      }
      assert names[..|names|] == names;
    }

    /** Reconcile once the samples are there: add them up, then write tenants, projects and apps. */
    method Reconcile(samples: seq<Metering.Sample>, l: Listing, w: Window)
      returns (tenants: map<string, Usage>, projects: map<string, Usage>, apps: map<string, Usage>)
      modifies this
      ensures Aggregates(samples, tenants, projects, apps)
      ensures records == UpsertAll(old(records), Subjects(l, tenants, projects, apps), NameOf(w), WindowText(w))
    {
      tenants, projects, apps := Metering.Aggregate(samples);
      WriteAll(l, tenants, projects, apps, NameOf(w), WindowText(w));
    }

    method WriteAll(l: Listing, tenants: map<string, Usage>, projects: map<string, Usage>, apps: map<string, Usage>,
                    nameOf: Subject -> string, window: string)
      modifies this
      ensures records == UpsertAll(old(records), Subjects(l, tenants, projects, apps), nameOf, window)
    {
      UpsertTenants(l.tenants, tenants, nameOf, window);
      UpsertKeyed(OfProject, l.projects, projects, nameOf, window);
      UpsertKeyed(OfApp, l.apps, apps, nameOf, window);
      ghost var ts := TenantSubjects(l.tenants, tenants);
      ghost var ps, xs := KeyedSubjects(OfProject, l.projects, projects), KeyedSubjects(OfApp, l.apps, apps);
      UpsertAllConcat(old(records), ts, ps, nameOf, window);
      UpsertAllConcat(old(records), ts + ps, xs, nameOf, window);
    }
  }
}
