/** Option and Result, for lookups that may miss and calls that may fail. */
module Wrappers {
  datatype Option<+T> = None | Some(value: T)
  datatype Result<+T, +E> = Ok(value: T) | Err(error: E)
}

/**
 The pieces of Go's `strings` package the code relies on. Strings are sequences of
 Unicode scalar values. Lower-casing is exact on ASCII and takes the rest of the
 Unicode table as the parameter `uni`.
 */
module Text {

  /** The Unicode White_Space characters, which is what strings.TrimSpace removes. */
  predicate IsSpace(c: char) {
    || '\t' <= c <= '\r' || c == ' ' || c == '\U{0085}' || c == '\U{00A0}' || c == '\U{1680}'
    || '\U{2000}' <= c <= '\U{200A}' || c == '\U{2028}' || c == '\U{2029}' || c == '\U{202F}'
    || c == '\U{205F}' || c == '\U{3000}'
  }

  predicate IsDash(c: char) { c == '-' }

  /** No character of `cut` at either end. */
  predicate Bare(s: string, cut: char -> bool) {
    s == "" || (!cut(s[0]) && !cut(s[|s| - 1]))
  }

  function TrimLeft(s: string, cut: char -> bool): string {
    if s != "" && cut(s[0]) then TrimLeft(s[1..], cut) else s
  }

  function TrimRight(s: string, cut: char -> bool): string {
    if s != "" && cut(s[|s| - 1]) then TrimRight(s[..|s| - 1], cut) else s
  }

  /** strings.TrimFunc. */
  function Trim(s: string, cut: char -> bool): string {
    TrimRight(TrimLeft(s, cut), cut)
  }

  function TrimSpace(s: string): string { Trim(s, IsSpace) }

  lemma {:induction false} TrimLeftShape(s: string, cut: char -> bool)
    ensures var r := TrimLeft(s, cut);
            && |r| <= |s| && r == s[|s| - |r|..]
            && (forall i :: 0 <= i < |s| - |r| ==> cut(s[i]))
            && (r == "" || !cut(r[0]))
  {
    if s != "" && cut(s[0]) {
      var t, r := s[1..], TrimLeft(s, cut);
      TrimLeftShape(t, cut);
      assert r == TrimLeft(t, cut);
      assert forall i :: 0 < i < |s| ==> s[i] == t[i - 1];
      assert r == t[|t| - |r|..] == s[|s| - |r|..];
    }
  }

  lemma {:induction false} TrimRightShape(s: string, cut: char -> bool)
    ensures var r := TrimRight(s, cut);
            && |r| <= |s| && r == s[..|r|]
            && (forall i :: |r| <= i < |s| ==> cut(s[i]))
            && (r == "" || !cut(r[|r| - 1]))
  {
    if s != "" && cut(s[|s| - 1]) {
      TrimRightShape(s[..|s| - 1], cut);
    }
  }

  /** What is left is bare, bare text is untouched, and nothing is left exactly when everything is cut. */
  lemma TrimShape(s: string, cut: char -> bool)
    ensures var r := Trim(s, cut);
            && Bare(r, cut)
            && |r| <= |s|
            && (Bare(s, cut) ==> r == s)
            && (r == "" <==> forall i :: 0 <= i < |s| ==> cut(s[i]))
  {
    var l := TrimLeft(s, cut);
    TrimLeftShape(s, cut);
    TrimRightShape(l, cut);
    assert forall i :: |s| - |l| <= i < |s| ==> s[i] == l[i - (|s| - |l|)];
  }

  lemma TrimSpaceIdempotent(s: string)
    ensures TrimSpace(TrimSpace(s)) == TrimSpace(s)
  {
    TrimShape(s, IsSpace);
    TrimShape(TrimSpace(s), IsSpace);
  }

  /** Every character of the trimmed string occurs in the original. */
  lemma TrimKeepsCharacters(s: string, cut: char -> bool, c: char)
    requires c in Trim(s, cut)
    ensures c in s
  {
    var l := TrimLeft(s, cut);
    TrimLeftShape(s, cut);
    TrimRightShape(l, cut);
    var i :| 0 <= i < |Trim(s, cut)| && Trim(s, cut)[i] == c;
    assert l[i] == c;
    assert s[|s| - |l| + i] == c;
  }

  function LowerChar(c: char, uni: char -> char): (r: char) {
    if 'A' <= c <= 'Z' then (c as int - 'A' as int + 'a' as int) as char
    else if c < '\U{0080}' then c
    else uni(c)
  }

  function ToLower(s: string, uni: char -> char): (r: string)
    ensures |r| == |s|
    ensures forall i :: 0 <= i < |s| ==> r[i] == LowerChar(s[i], uni)
  {
    seq(|s|, i requires 0 <= i < |s| => LowerChar(s[i], uni))
  }

  /** Which characters count as space, by code point. */
  lemma SpacesByCode(c: char)
    ensures IsSpace(c) <==>
            || 9 <= c as int <= 13
            || c as int in {0x20, 0x85, 0xA0, 0x1680, 0x2028, 0x2029, 0x202F, 0x205F, 0x3000}
            || 0x2000 <= c as int <= 0x200A
  {
  }

  /** On ASCII text, capital letters move by 32 and nothing else changes. */
  lemma LowerOnAscii(s: string, uni: char -> char)
    requires forall i :: 0 <= i < |s| ==> s[i] as int < 128
    ensures forall i :: 0 <= i < |s| ==>
              ToLower(s, uni)[i] as int == s[i] as int + if 65 <= s[i] as int <= 90 then 32 else 0
  {
  }

  predicate IsAlnum(c: char) { 'a' <= c <= 'z' || '0' <= c <= '9' }

  /** A DNS label as in section 2.1 of RFC 1123, in the lower-case form Kubernetes accepts. */
  predicate IsDnsLabel(s: string) {
    && 1 <= |s| <= 63
    && (forall i :: 0 <= i < |s| ==> IsAlnum(s[i]) || s[i] == '-')
    && IsAlnum(s[0]) && IsAlnum(s[|s| - 1])
  }

  predicate NoDoubleDash(s: string) {
    forall i :: 0 <= i < |s| - 1 ==> s[i] != '-' || s[i + 1] != '-'
  }

  /** The letters and digits of `s`, in order. */
  function Alnums(s: string): string {
    if s == "" then "" else (if IsAlnum(s[0]) then [s[0]] else "") + Alnums(s[1..])
  }

  /**
   Every maximal run of other characters becomes one dash, and letters and digits stay.
   `lastDash` says that the character before `s` was already written as a dash.
   */
  function Collapse(s: string, lastDash: bool): (r: string)
    ensures |r| <= |s|
    ensures forall i :: 0 <= i < |r| ==> IsAlnum(r[i]) || r[i] == '-'
    ensures NoDoubleDash(r)
    ensures lastDash && r != "" ==> r[0] != '-'
  {
    if s == "" then ""
    else if IsAlnum(s[0]) then [s[0]] + Collapse(s[1..], false)
    else if lastDash then Collapse(s[1..], true)
    else "-" + Collapse(s[1..], true)
  }

  /** Collapsing drops no letter or digit. */
  lemma {:induction false} CollapseKeepsAlnums(s: string, lastDash: bool)
    ensures Alnums(Collapse(s, lastDash)) == Alnums(s)
  {
    if s != "" {
      var rest := Collapse(s[1..], !IsAlnum(s[0]));
      CollapseKeepsAlnums(s[1..], !IsAlnum(s[0]));
      assert ([s[0]] + rest)[1..] == rest && ("-" + rest)[1..] == rest;
    }
  }

  lemma Regroup<T>(a: seq<T>, b: seq<T>, c: seq<T>)
    ensures a + (b + c) == (a + b) + c
  {
  }

  lemma {:induction false} AlnumsConcat(a: string, b: string)
    ensures Alnums(a + b) == Alnums(a) + Alnums(b)
  {
    if a == "" {
      assert a + b == b;
    } else {
      var head := if IsAlnum(a[0]) then [a[0]] else "";
      AlnumsConcat(a[1..], b);
      assert (a + b)[0] == a[0] && (a + b)[1..] == a[1..] + b;
      assert Alnums(a + b) == head + Alnums(a[1..] + b);
      Regroup(head, Alnums(a[1..]), Alnums(b));
    }
  }

  lemma {:induction false} AlnumsAll(s: string)
    requires forall i :: 0 <= i < |s| ==> IsAlnum(s[i])
    ensures Alnums(s) == s
  {
    if s != "" {
      AlnumsAll(s[1..]);
      assert s == [s[0]] + s[1..];
    }
  }

  lemma {:induction false} AlnumsNone(s: string)
    ensures Alnums(s) == "" <==> forall i :: 0 <= i < |s| ==> !IsAlnum(s[i])
  {
    if s != "" {
      AlnumsNone(s[1..]);
      assert forall i :: 1 <= i < |s| ==> s[i] == s[1..][i - 1];
    }
  }

  lemma {:induction false} TrimLeftKeepsAlnums(s: string)
    ensures Alnums(TrimLeft(s, IsDash)) == Alnums(s)
  {
    if s != "" && IsDash(s[0]) {
      TrimLeftKeepsAlnums(s[1..]);
    }
  }

  lemma {:induction false} TrimRightKeepsAlnums(s: string)
    ensures Alnums(TrimRight(s, IsDash)) == Alnums(s)
  {
    if s != "" && IsDash(s[|s| - 1]) {
      var init := s[..|s| - 1];
      TrimRightKeepsAlnums(init);
      AlnumsConcat(init, "-");
      assert s == init + "-";
      assert Alnums("-") == "";
    }
  }

  /** Trimming dashes drops no letter or digit. */
  lemma TrimKeepsAlnums(s: string)
    ensures Alnums(Trim(s, IsDash)) == Alnums(s)
  {
    TrimLeftKeepsAlnums(s);
    TrimRightKeepsAlnums(TrimLeft(s, IsDash));
  }

  /** Text that has no run to collapse is left as it is. */
  lemma {:induction false} CollapseFixes(s: string, lastDash: bool)
    requires forall i :: 0 <= i < |s| ==> IsAlnum(s[i]) || s[i] == '-'
    requires NoDoubleDash(s)
    requires lastDash && s != "" ==> s[0] != '-'
    ensures Collapse(s, lastDash) == s
  {
    if s != "" {
      var t := s[1..];
      assert forall i :: 0 <= i < |t| ==> t[i] == s[i + 1];
      assert t != "" ==> t[0] == s[1] && (s[0] != '-' || s[1] != '-');
      CollapseFixes(t, s[0] == '-');
      assert s == [s[0]] + t;
    }
  }

  /** strings.Split(s, sep) for a one-character separator: never empty. */
  function Split(s: string, sep: char): (parts: seq<string>)
    ensures |parts| >= 1
    ensures forall p :: p in parts ==> sep !in p
  {
    if s == "" then [""]
    else
      var rest := Split(s[1..], sep);
      if s[0] == sep then [""] + rest
      else [[s[0]] + rest[0]] + rest[1..]
  }

  /** strings.Join(parts, sep). */
  function Join(parts: seq<string>, sep: string): string {
    if parts == [] then ""
    else if |parts| == 1 then parts[0]
    else parts[0] + sep + Join(parts[1..], sep)
  }

  lemma {:induction false} SplitAtSeparator(a: string, sep: char, b: string)
    requires sep !in a
    ensures Split(a + [sep] + b, sep) == [a] + Split(b, sep)
  {
    var s := a + [sep] + b;
    if a == "" {
      assert s[1..] == b;
      assert [""] + Split(b, sep) == [a] + Split(b, sep);
    } else {
      assert s[1..] == a[1..] + [sep] + b;
      SplitAtSeparator(a[1..], sep, b);
      assert a == [a[0]] + a[1..];
    }
  }

  lemma {:induction false} SplitWithoutSeparator(a: string, sep: char)
    requires sep !in a
    ensures Split(a, sep) == [a]
  {
    if a != "" {
      SplitWithoutSeparator(a[1..], sep);
      assert a == [a[0]] + a[1..];
    }
  }

  /** Joining what Split produced gives the string back. */
  lemma {:induction false} JoinSplit(s: string, sep: char)
    ensures Join(Split(s, sep), [sep]) == s
  {
    if s != "" {
      var rest := Split(s[1..], sep);
      JoinSplit(s[1..], sep);
      if s[0] == sep {
        var parts := [""] + rest;
        assert parts[1..] == rest;
        assert Join(parts, [sep]) == "" + [sep] + Join(rest, [sep]);
      } else {
        var parts := [[s[0]] + rest[0]] + rest[1..];
        assert parts[1..] == rest[1..];
      }
      assert s == [s[0]] + s[1..];
    }
  }

  /** Splitting what Join produced gives the parts back. */
  lemma {:induction false} SplitJoin(parts: seq<string>, sep: char)
    requires parts != []
    requires forall p :: p in parts ==> sep !in p
    ensures Split(Join(parts, [sep]), sep) == parts
  {
    if |parts| == 1 {
      SplitWithoutSeparator(parts[0], sep);
    } else {
      SplitJoin(parts[1..], sep);
      SplitAtSeparator(parts[0], sep, Join(parts[1..], [sep]));
      assert parts == [parts[0]] + parts[1..];
    }
  }
}

/** Facts about remainders that the paging and ring-buffer proofs share. */
module Remainders {
  lemma SmallMod(i: nat, m: nat)
    requires i < m
    ensures i % m == i
  {
  }

  lemma ModShift(i: nat, m: nat)
    requires m > 0
    ensures (i + m) % m == i % m
  {
    var q, r := i / m, i % m;
    assert i + m == (q + 1) * m + r;
    QuotientUnique(i + m, m, q + 1, r);
  }

  lemma QuotientUnique(x: int, m: int, q: int, r: int)
    requires m > 0 && x == q * m + r && 0 <= r < m
    ensures x % m == r
  {
    var q', r' := x / m, x % m;
    assert x == q' * m + r';
    assert (q - q') * m == r' - r;
    MultipleIsFar(q - q', m);
  }

  lemma MultipleIsFar(k: int, m: int)
    requires m > 0
    ensures k >= 1 ==> k * m >= m
    ensures k <= -1 ==> k * m <= -m
  {
  }
}

/** Go's map iteration visits the keys in some order, each once. */
module Enumerations {
  /** `order` lists the elements of `keys`, each once. */
  ghost predicate Enumerates(order: seq<string>, keys: set<string>) {
    && (forall i, j :: 0 <= i < j < |order| ==> order[i] != order[j])
    && (forall k :: k in order <==> k in keys)
  }

  /** There is an order that visits a given key last. */
  lemma VisitLast(keys: set<string>, last: string) returns (order: seq<string>)
    requires last in keys
    ensures Enumerates(order, keys) && order != [] && order[|order| - 1] == last
  {
    var before := VisitAll(keys - {last});
    order := before + [last];
  }

  lemma {:induction false} VisitAll(keys: set<string>) returns (order: seq<string>)
    ensures Enumerates(order, keys)
  {
    if keys == {} {
      order := [];
    } else {
      var k :| k in keys;
      order := VisitLast(keys, k);
    }
  }
}

/** The labels that say which tenant, project and app a Kubernetes object belongs to. */
module ObjectLabels {
  type Labels = map<string, string>

  const TENANT := "paas.kubeop.io/tenant"
  const PROJECT := "paas.kubeop.io/project"
  const APP := "paas.kubeop.io/app"

  /** A label's value, empty when it is not set. */
  function Label(labels: Labels, key: string): string { if key in labels then labels[key] else "" }
}
