/**
 Names of Kubernetes objects derived from user input: internal/util/slugify.go and
 internal/service/app_names.go. SHA-1 is a parameter with a 20-byte result.
 */
module Names {
  import opened Text

  type Digest = d: seq<int> | |d| == 20 && forall i :: 0 <= i < |d| ==> 0 <= d[i] < 256
    witness seq(20, _ => 0)

  const MAX_LABEL := 63

  /** The slug before the cut at 63 characters. */
  function FullSlug(s: string, uni: char -> char): string {
    Trim(Collapse(ToLower(TrimSpace(s), uni), false), IsDash)
  }

  function Slugify(s: string, uni: char -> char): string {
    Cut(FullSlug(s, uni))
  }

  function Cut(full: string): string {
    var cut := if |full| > MAX_LABEL then full[..MAX_LABEL] else full;
    if cut == "" then "ns" else cut
  }

  /** Letters, digits and dashes, with no dash at either end. */
  predicate SlugShaped(f: string) {
    && (forall i :: 0 <= i < |f| ==> IsAlnum(f[i]) || f[i] == '-')
    && (f != "" ==> IsAlnum(f[0]) && IsAlnum(f[|f| - 1]))
  }

  lemma FullSlugShape(s: string, uni: char -> char)
    ensures SlugShaped(FullSlug(s, uni))
  {
    TrimmedCollapseShape(ToLower(TrimSpace(s), uni));
  }

  lemma TrimmedCollapseShape(s: string)
    ensures SlugShaped(Trim(Collapse(s, false), IsDash))
  {
    var collapsed := Collapse(s, false);
    var f := Trim(collapsed, IsDash);
    TrimShape(collapsed, IsDash);
    forall i | 0 <= i < |f| ensures IsAlnum(f[i]) || f[i] == '-' {
      TrimKeepsCharacters(collapsed, IsDash, f[i]);
    }
  }

  /** What the cut leaves: at most 63 characters that start with a letter or digit. */
  predicate CutShaped(r: string) {
    && 1 <= |r| <= MAX_LABEL
    && IsAlnum(r[0])
    && (forall i :: 0 <= i < |r| ==> IsAlnum(r[i]) || r[i] == '-')
    && (|r| < MAX_LABEL ==> IsDnsLabel(r))
  }

  predicate CutSplitsAtDash(full: string) {
    |full| > MAX_LABEL && full[MAX_LABEL - 1] == '-'
  }

  lemma CutIsLabelIff(full: string)
    requires SlugShaped(full)
    ensures IsDnsLabel(Cut(full)) <==> !CutSplitsAtDash(full)
    ensures CutShaped(Cut(full))
  {
  }

  /**
   A slug is a DNS label except in one case: the cut at 63 characters fell right after
   a dash. The condition reads the input only.
   */
  lemma SlugifyIsLabelIff(s: string, uni: char -> char)
    ensures IsDnsLabel(Slugify(s, uni)) <==> !CutSplitsAtDash(FullSlug(s, uni))
    ensures CutShaped(Slugify(s, uni))
  {
    FullSlugShape(s, uni);
    CutIsLabelIff(FullSlug(s, uni));
  }

  /** The slug before the cut keeps exactly the letters and digits of the lowered input, in order. */
  lemma FullSlugKeepsAlnums(s: string, uni: char -> char)
    ensures Alnums(FullSlug(s, uni)) == Alnums(ToLower(TrimSpace(s), uni))
  {
    var v := ToLower(TrimSpace(s), uni);
    CollapseKeepsAlnums(v, false);
    TrimKeepsAlnums(Collapse(v, false));
  }

  /**
   An input without letters and digits gets the fallback. Otherwise a slug holds the first of its
   letters and digits, and all of them if and only if it was not cut.
   */
  lemma SlugKeepsAlnumsIff(s: string, uni: char -> char)
    ensures var letters, slug := Alnums(ToLower(TrimSpace(s), uni)), Slugify(s, uni);
            && (letters == "" ==> slug == "ns")
            && (letters != "" ==> Alnums(slug) <= letters)
            && (letters != "" ==> (Alnums(slug) == letters <==> |FullSlug(s, uni)| <= 63))
  {
    var full := FullSlug(s, uni);
    FullSlugKeepsAlnums(s, uni);
    FullSlugShape(s, uni);
    AlnumsNone(full);
    if |full| > MAX_LABEL {
      var head, rest := full[..MAX_LABEL], full[MAX_LABEL..];
      AlnumsConcat(head, rest);
      assert full == head + rest;
      AlnumsNone(rest);
      assert IsAlnum(rest[|rest| - 1]);
    }
  }

  /** The letters and digits of a name made of three parts and dashes are those of the parts, in order. */
  lemma JoinedAlnums(a: string, b: string, c: string, uni: char -> char)
    ensures Alnums(ToLower(a + "-" + b + "-" + c, uni)) ==
            Alnums(ToLower(a, uni)) + Alnums(ToLower(b, uni)) + Alnums(ToLower(c, uni))
  {
    var x, y, z := ToLower(a, uni), ToLower(b, uni), ToLower(c, uni);
    assert ToLower(a + "-" + b + "-" + c, uni) == x + "-" + y + "-" + z;
    AlnumsConcat(x + "-" + y + "-", z);
    AlnumsConcat(x + "-" + y, "-");
    AlnumsConcat(x + "-", y);
    AlnumsConcat(x, "-");
    assert Alnums("-") == "";
    EmptyEnds(Alnums(x));
    EmptyEnds(Alnums(x) + Alnums(y));
  }

  lemma EmptyEnds(s: string)
    ensures s + "" == s
  {
  }

  /** A project namespace that was not cut holds the letters of the user and then those of the project's name. */
  lemma ProjectSlug(user: string, name: string, uni: char -> char)
    requires name != "" && TrimSpace(name) == name
    requires |FullSlug("tenant-" + user + "-" + name, uni)| <= MAX_LABEL
    ensures Alnums(Slugify("tenant-" + user + "-" + name, uni)) ==
            "tenant" + Alnums(ToLower(user, uni)) + Alnums(ToLower(name, uni))
  {
    var s := "tenant-" + user + "-" + name;
    JoinIsBare("tenant-", user, name);
    TenantLetters(uni);
    JoinedAlnums("tenant", user, name, uni);
    assert "tenant" + "-" == "tenant-";
    UncutSlug(s, "tenant" + Alnums(ToLower(user, uni)) + Alnums(ToLower(name, uni)), uni);
  }

  lemma JoinIsBare(head: string, user: string, name: string)
    requires head != "" && !IsSpace(head[0]) && name != "" && TrimSpace(name) == name
    ensures TrimSpace(head + user + "-" + name) == head + user + "-" + name
  {
    var s := head + user + "-" + name;
    TrimShape(name, IsSpace);
    assert s[0] == head[0] && s[|s| - 1] == name[|name| - 1];
    TrimShape(s, IsSpace);
  }

  lemma TenantLetters(uni: char -> char)
    ensures Alnums(ToLower("tenant", uni)) == "tenant"
  {
    assert ToLower("tenant", uni) == "tenant";
    AlnumsAll("tenant");
  }

  lemma UncutSlug(s: string, letters: string, uni: char -> char)
    requires TrimSpace(s) == s && Alnums(ToLower(s, uni)) == letters != "" && |FullSlug(s, uni)| <= MAX_LABEL
    ensures Alnums(Slugify(s, uni)) == letters
  {
    SlugKeepsAlnumsIff(s, uni);
  }

  function HexDigit(n: int): (c: char)
    requires 0 <= n < 16
    ensures IsAlnum(c)
  {
    "0123456789abcdef"[n]
  }

  function Hex(bytes: seq<int>): (r: string)
    requires forall i :: 0 <= i < |bytes| ==> 0 <= bytes[i] < 256
    ensures |r| == 2 * |bytes|
    ensures forall i :: 0 <= i < |r| ==> IsAlnum(r[i])
  {
    if bytes == [] then "" else [HexDigit(bytes[0] / 16), HexDigit(bytes[0] % 16)] + Hex(bytes[1..])
  }

  function Base32Digit(n: int): (c: char)
    requires 0 <= n < 32
    ensures IsAlnum(c)
  {
    "abcdefghijklmnopqrstuvwxyz234567"[n]
  }

  /** Three bytes in base 32 without padding: 24 bits and one zero bit give five digits. */
  function Base32OfThree(a: int, b: int, c: int): (r: string)
    requires 0 <= a < 256 && 0 <= b < 256 && 0 <= c < 256
    ensures |r| == 5
    ensures forall i :: 0 <= i < |r| ==> IsAlnum(r[i])
  {
    [Base32Digit(a / 8), Base32Digit(a % 8 * 4 + b / 64), Base32Digit(b / 2 % 32),
     Base32Digit(b % 2 * 16 + c / 16), Base32Digit(c % 16 * 2)]
  }

  lemma HexDigitsDiffer(m: int, n: int)
    requires 0 <= m < 16 && 0 <= n < 16
    ensures HexDigit(m) == HexDigit(n) <==> m == n
  {
    HexDigitReadsBack(m);
    HexDigitReadsBack(n);
  }

  lemma HexDigitReadsBack(n: int)
    requires 0 <= n < 16
    ensures var c := HexDigit(n) as int; n == if c < 'a' as int then c - '0' as int else c - 'a' as int + 10
  {
  }

  lemma {:induction false} HexAt(bytes: seq<int>, i: nat)
    requires i < |bytes| && forall i :: 0 <= i < |bytes| ==> 0 <= bytes[i] < 256
    ensures Hex(bytes)[2 * i] == HexDigit(bytes[i] / 16) && Hex(bytes)[2 * i + 1] == HexDigit(bytes[i] % 16)
  {
    if i > 0 {
      var rest := bytes[1..];
      HexAt(rest, i - 1);
      assert Hex(bytes)[2..] == Hex(rest);
      assert Hex(bytes)[2 * i] == Hex(rest)[2 * (i - 1)] && Hex(bytes)[2 * i + 1] == Hex(rest)[2 * (i - 1) + 1];
    }
  }

  /** Hexadecimal text tells bytes apart. */
  lemma HexIsInjective(a: seq<int>, b: seq<int>)
    requires |a| == |b|
    requires forall i :: 0 <= i < |a| ==> 0 <= a[i] < 256
    requires forall i :: 0 <= i < |b| ==> 0 <= b[i] < 256
    requires Hex(a) == Hex(b)
    ensures a == b
  {
    forall i | 0 <= i < |a| ensures a[i] == b[i] {
      HexAt(a, i);
      HexAt(b, i);
      HexDigitsDiffer(a[i] / 16, b[i] / 16);
      HexDigitsDiffer(a[i] % 16, b[i] % 16);
    }
  }

  lemma Base32DigitReadsBack(n: int)
    requires 0 <= n < 32
    ensures var c := Base32Digit(n) as int; n == if c >= 'a' as int then c - 'a' as int else c - '2' as int + 26
  {
  }

  lemma Base32DigitsDiffer(m: int, n: int)
    requires 0 <= m < 32 && 0 <= n < 32 && Base32Digit(m) == Base32Digit(n)
    ensures m == n
  {
    Base32DigitReadsBack(m);
    Base32DigitReadsBack(n);
  }

  /** So does the base 32 text of three bytes. */
  lemma Base32IsInjective(a: int, b: int, c: int, a': int, b': int, c': int)
    requires 0 <= a < 256 && 0 <= b < 256 && 0 <= c < 256 && 0 <= a' < 256 && 0 <= b' < 256 && 0 <= c' < 256
    requires Base32OfThree(a, b, c) == Base32OfThree(a', b', c')
    ensures a == a' && b == b' && c == c'
  {
    var r, s := Base32OfThree(a, b, c), Base32OfThree(a', b', c');
    assert r[0] == s[0] && r[1] == s[1] && r[2] == s[2] && r[3] == s[3] && r[4] == s[4];
    Base32DigitsDiffer(a / 8, a' / 8);
    Base32DigitsDiffer(a % 8 * 4 + b / 64, a' % 8 * 4 + b' / 64);
    Base32DigitsDiffer(b / 2 % 32, b' / 2 % 32);
    Base32DigitsDiffer(b % 2 * 16 + c / 16, b' % 2 * 16 + c' / 16);
    Base32DigitsDiffer(c % 16 * 2, c' % 16 * 2);
    BytesFromDigits(a, b, c, a', b', c');
  }

  lemma BytesFromDigits(a: int, b: int, c: int, a': int, b': int, c': int)
    requires 0 <= a < 256 && 0 <= b < 256 && 0 <= c < 256 && 0 <= a' < 256 && 0 <= b' < 256 && 0 <= c' < 256
    requires a / 8 == a' / 8 && a % 8 * 4 + b / 64 == a' % 8 * 4 + b' / 64
    requires b / 2 % 32 == b' / 2 % 32 && b % 2 * 16 + c / 16 == b' % 2 * 16 + c' / 16 && c % 16 * 2 == c' % 16 * 2
    ensures a == a' && b == b' && c == c'
  {
    ByteParts(a);
    ByteParts(b);
    ByteParts(c);
    ByteParts(a');
    ByteParts(b');
    ByteParts(c');
    SameTwoDigits(a % 8, b / 64, a' % 8, b' / 64, 4);
    SameTwoDigits(b % 2, c / 16, b' % 2, c' / 16, 16);
  }

  lemma ByteParts(b: int)
    requires 0 <= b < 256
    ensures 0 <= b / 64 < 4 && 0 <= b / 16 < 16
    ensures b == b / 64 * 64 + b / 2 % 32 * 2 + b % 2 == b / 8 * 8 + b % 8 == b / 16 * 16 + b % 16
  {
  }

  lemma SameTwoDigits(x: int, y: int, x': int, y': int, base: int)
    requires base == 4 || base == 16
    requires 0 <= y < base && 0 <= y' < base && x * base + y == x' * base + y'
    ensures x == x' && y == y'
  {
  }

  const SUFFIX_LENGTH := 15

  function ResourceSuffix(appId: string, sha1: string -> Digest): (r: string)
    ensures r == "" <==> TrimSpace(appId) == ""
    ensures r != "" ==>
      && |r| == SUFFIX_LENGTH
      && (forall i :: 0 <= i < |r| ==> IsAlnum(r[i]) || r[i] == '-')
      && IsAlnum(r[0]) && IsAlnum(r[|r| - 1])
  {
    if TrimSpace(appId) == "" then ""
    else
      DigestText(sha1(appId))
  }

  /**
   Two ids that are not blank have the same suffix if and only if their digests agree on the first
   four bytes, the upper half of the fifth, and the sixth to eighth: on 60 bits.
   */
  lemma SuffixesAgreeIff(id: string, other: string, sha1: string -> Digest)
    requires TrimSpace(id) != "" && TrimSpace(other) != ""
    ensures var a, b := sha1(id), sha1(other);
            ResourceSuffix(id, sha1) == ResourceSuffix(other, sha1) <==>
            a[..4] == b[..4] && a[4] / 16 == b[4] / 16 && a[5] == b[5] && a[6] == b[6] && a[7] == b[7]
  {
    DigestTextsAgreeIff(sha1(id), sha1(other));
  }

  function DigestText(d: Digest): string { Hex(d[..5])[..9] + "-" + Base32OfThree(d[5], d[6], d[7]) }

  lemma DigestTextsAgreeIff(a: Digest, b: Digest)
    ensures DigestText(a) == DigestText(b) <==>
            a[..4] == b[..4] && a[4] / 16 == b[4] / 16 && a[5] == b[5] && a[6] == b[6] && a[7] == b[7]
  {
    var p, q := Base32OfThree(a[5], a[6], a[7]), Base32OfThree(b[5], b[6], b[7]);
    NineDigits(a[..5]);
    NineDigits(b[..5]);
    assert a[..5][..4] == a[..4] && b[..5][..4] == b[..4];
    SuffixParts(Hex(a[..4]), HexDigit(a[4] / 16), p, Hex(b[..4]), HexDigit(b[4] / 16), q);
    HexDigitsDiffer(a[4] / 16, b[4] / 16);
    if Hex(a[..4]) == Hex(b[..4]) {
      HexIsInjective(a[..4], b[..4]);
    }
    if p == q {
      Base32IsInjective(a[5], a[6], a[7], b[5], b[6], b[7]);
    }
  }

  /** Nine hexadecimal digits are four bytes and the upper half of the fifth. */
  lemma NineDigits(five: seq<int>)
    requires |five| == 5 && forall i :: 0 <= i < 5 ==> 0 <= five[i] < 256
    ensures Hex(five)[..9] == Hex(five[..4]) + [HexDigit(five[4] / 16)]
  {
    var four := five[..4];
    forall i | 0 <= i < 4
      ensures Hex(five)[2 * i] == Hex(four)[2 * i] && Hex(five)[2 * i + 1] == Hex(four)[2 * i + 1]
    {
      HexAt(five, i);
      HexAt(four, i);
    }
    HexAt(five, 4);
    PairwiseEqual(Hex(five)[..8], Hex(four), 4);
  }

  lemma PairwiseEqual(s: string, t: string, n: nat)
    requires |s| == |t| == 2 * n
    requires forall i :: 0 <= i < n ==> s[2 * i] == t[2 * i] && s[2 * i + 1] == t[2 * i + 1]
    ensures s == t
  {
    forall j | 0 <= j < |s| ensures s[j] == t[j] {
      assert j == 2 * (j / 2) || j == 2 * (j / 2) + 1;
    }
  }

  lemma SuffixParts(x: string, c: char, p: string, y: string, d: char, q: string)
    requires |x| == |y| == 8 && |p| == |q|
    ensures x + [c] + "-" + p == y + [d] + "-" + q <==> x == y && c == d && p == q
  {
    var s, t := x + [c] + "-" + p, y + [d] + "-" + q;
    if s == t {
      assert s[..8] == x && t[..8] == y && s[8] == c && t[8] == d && s[10..] == p && t[10..] == q;
    }
  }

  function DeriveKubeName(baseName: string, appId: string, uni: char -> char, sha1: string -> Digest): string {
    WithSuffix(Slugify(baseName, uni), ResourceSuffix(appId, sha1))
  }

  function WithSuffix(slug: string, suffix: string): string {
    var base := if slug == "" then "app" else slug;
    if suffix == "" then
      if |base| > MAX_LABEL then base[..MAX_LABEL] else base
    else
      var room := MAX_LABEL - |suffix| - 1;
      var maxBase := if room < 1 then 1 else room;
      Fitted(base, maxBase) + "-" + suffix
  }

  /** The base cut to `maxBase` characters, without the dashes the cut may leave at its end. */
  function Fitted(base: string, maxBase: nat): string {
    if |base| > maxBase then
      var trimmed := Trim(base[..maxBase], IsDash);
      if trimmed == "" then "app" else trimmed
    else base
  }

  lemma FittedShape(base: string, maxBase: nat)
    requires CutShaped(base) && 1 <= maxBase < MAX_LABEL
    ensures var f := Fitted(base, maxBase);
            f != "" && f <= base && |f| <= maxBase && SlugShaped(f) && (|base| <= maxBase ==> f == base)
  {
    if |base| > maxBase {
      LeadingLetterSurvives(base[..maxBase]);
    }
  }

  /** `name` is `head-suffix`, where `head` is a non-empty beginning of `slug`: all of it when it fits. */
  predicate SuffixedSlug(name: string, slug: string, suffix: string) {
    && |name| > |suffix| + 1
    && name[|name| - |suffix| - 1..] == "-" + suffix
    && name[..|name| - |suffix| - 1] <= slug
    && (|slug| + 1 + |suffix| <= MAX_LABEL ==> name == slug + "-" + suffix)
  }

  /**
   With an app id the derived name is a DNS label that ends in the id's whole suffix,
   after a non-empty beginning of the slug.
   */
  lemma DeriveKubeNameIsLabel(baseName: string, appId: string, uni: char -> char, sha1: string -> Digest)
    requires TrimSpace(appId) != ""
    ensures IsDnsLabel(DeriveKubeName(baseName, appId, uni, sha1))
    ensures |ResourceSuffix(appId, sha1)| == SUFFIX_LENGTH
    ensures SuffixedSlug(DeriveKubeName(baseName, appId, uni, sha1), Slugify(baseName, uni),
                         ResourceSuffix(appId, sha1))
  {
    SlugifyIsLabelIff(baseName, uni);
    WithSuffixIsLabel(Slugify(baseName, uni), ResourceSuffix(appId, sha1));
  }

  lemma WithSuffixIsLabel(slug: string, suffix: string)
    requires CutShaped(slug)
    requires |suffix| == SUFFIX_LENGTH && SlugShaped(suffix)
    ensures IsDnsLabel(WithSuffix(slug, suffix))
    ensures SuffixedSlug(WithSuffix(slug, suffix), slug, suffix)
  {
    var room := MAX_LABEL - SUFFIX_LENGTH - 1;
    FittedShape(slug, room);
    JoinedIsLabel(Fitted(slug, room), suffix);
    assert WithSuffix(slug, suffix) == Fitted(slug, room) + "-" + suffix;
  }

  lemma JoinedIsLabel(head: string, suffix: string)
    requires head != "" && SlugShaped(head) && suffix != "" && SlugShaped(suffix)
    requires |head| + 1 + |suffix| <= MAX_LABEL
    ensures var name := head + "-" + suffix;
            && IsDnsLabel(name)
            && name[|name| - |suffix| - 1..] == "-" + suffix
            && name[..|name| - |suffix| - 1] == head
  {
  }

  /** Trimming dashes from text that starts with a letter or digit only shortens its end. */
  lemma LeadingLetterSurvives(s: string)
    requires s != "" && IsAlnum(s[0])
    requires forall i :: 0 <= i < |s| ==> IsAlnum(s[i]) || s[i] == '-'
    ensures var t := Trim(s, IsDash);
            t != "" && t <= s && SlugShaped(t)
  {
    var t := TrimRight(s, IsDash);
    TrimRightShape(s, IsDash);
    assert TrimLeft(s, IsDash) == s && Trim(s, IsDash) == t;
    TrimRightKeepsFirst(s, t);
  }

  lemma TrimRightKeepsFirst(s: string, t: string)
    requires s != "" && IsAlnum(s[0])
    requires forall i :: 0 <= i < |s| ==> IsAlnum(s[i]) || s[i] == '-'
    requires |t| <= |s| && t == s[..|t|] && (t == "" || !IsDash(t[|t| - 1]))
    requires forall i :: |t| <= i < |s| ==> IsDash(s[i])
    ensures t != "" && t <= s && SlugShaped(t)
  {
  }

  /** Without an app id the name is the slug, so it is a label exactly when the slug is. */
  lemma DeriveKubeNameWithoutId(baseName: string, appId: string, uni: char -> char, sha1: string -> Digest)
    requires TrimSpace(appId) == ""
    ensures IsDnsLabel(DeriveKubeName(baseName, appId, uni, sha1)) <==> !CutSplitsAtDash(FullSlug(baseName, uni))
  {
    SlugifyIsLabelIff(baseName, uni);
  }

  /** Apps whose ids have different suffixes never get the same name, whatever they are called. */
  lemma DerivedNamesDistinct(b1: string, id1: string, b2: string, id2: string, uni: char -> char,
                             sha1: string -> Digest)
    requires TrimSpace(id1) != "" && TrimSpace(id2) != ""
    requires ResourceSuffix(id1, sha1) != ResourceSuffix(id2, sha1)
    ensures DeriveKubeName(b1, id1, uni, sha1) != DeriveKubeName(b2, id2, uni, sha1)
  {
    DeriveKubeNameIsLabel(b1, id1, uni, sha1);
    DeriveKubeNameIsLabel(b2, id2, uni, sha1);
    SuffixDetermined(DeriveKubeName(b1, id1, uni, sha1), Slugify(b1, uni), ResourceSuffix(id1, sha1),
                     Slugify(b2, uni), ResourceSuffix(id2, sha1));
  }

  lemma SuffixDetermined(name: string, slug1: string, suffix1: string, slug2: string, suffix2: string)
    requires |suffix1| == |suffix2| && SuffixedSlug(name, slug1, suffix1)
    ensures SuffixedSlug(name, slug2, suffix2) ==> suffix1 == suffix2
  {
    if SuffixedSlug(name, slug2, suffix2) {
      assert ("-" + suffix1)[1..] == ("-" + suffix2)[1..];
    }
  }

  /** The failing case exists: 62 letters, a space and one more word. */
  lemma SlugMayEndInDash(a: string, uni: char -> char)
    requires |a| == MAX_LABEL - 1 && forall i :: 0 <= i < |a| ==> IsAlnum(a[i])
    ensures !IsDnsLabel(Slugify(a + " b", uni))
  {
    FullSlugOfTwoWords(a, uni);
    assert CutSplitsAtDash(a + "-b");
    SlugifyIsLabelIff(a + " b", uni);
  }

  lemma FullSlugOfTwoWords(a: string, uni: char -> char)
    requires a != "" && forall i :: 0 <= i < |a| ==> IsAlnum(a[i])
    ensures FullSlug(a + " b", uni) == a + "-b"
  {
    var s := a + " b";
    var out := a + "-b";
    assert Bare(s, IsSpace) && Bare(out, IsDash);
    TrimShape(s, IsSpace);
    TrimShape(out, IsDash);
    assert ToLower(s, uni) == s;
    assert Collapse(s, false) == out by {
      CollapsePrefix(a, " b");
      CollapseWord();
    }
  }

  lemma CollapseWord()
    ensures Collapse(" b", false) == "-b"
  {
    assert " b"[1..] == "b" && "b"[1..] == "";
  }

  lemma {:induction false} CollapsePrefix(a: string, b: string)
    requires forall i :: 0 <= i < |a| ==> IsAlnum(a[i])
    ensures Collapse(a + b, false) == a + Collapse(b, false)
  {
    if a == "" {
      assert a + b == b;
    } else {
      var t := a[1..];
      CollapsePrefix(t, b);
      assert (a + b)[1..] == t + b;
      assert Collapse(a + b, false) == [a[0]] + Collapse(t + b, false);
      Regroup([a[0]], t, Collapse(b, false));
      assert [a[0]] + t == a;
    }
  }
}
