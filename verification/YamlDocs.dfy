/**
 Rendered templates as one YAML stream, internal/service/apps.go: documents are joined with a
 separator line, and a stream is cut again at every line that trims to the separator.
 */
module YamlDocs {
  import opened Text

  predicate IsSeparator(line: string) { TrimSpace(line) == "---" }

  function Lines(s: string): (lines: seq<string>)
    ensures lines != [] && forall l :: l in lines ==> '\n' !in l
  {
    Split(s, '\n')
  }

  /** No line of the document reads as a separator. */
  ghost predicate Whole(doc: string, sep: string -> bool) { forall l :: l in Lines(doc) ==> !sep(l) }

  // ---------------------------------------------------------------- The stream, line by line

  /** Cut lines at separators; cur is the document being read. An unfinished empty document is dropped. */
  function Cut(lines: seq<string>, cur: seq<string>, sep: string -> bool): seq<seq<string>> {
    if lines == [] then if cur == [] then [] else [cur]
    else if sep(lines[0]) then [cur] + Cut(lines[1..], [], sep)
    else Cut(lines[1..], cur + [lines[0]], sep)
  }

  function Texts(groups: seq<seq<string>>): seq<string> {
    seq(|groups|, i requires 0 <= i < |groups| => Join(groups[i], "\n"))
  }

  function SplitDocs(s: string, sep: string -> bool): seq<string> { Texts(Cut(Lines(s), [], sep)) }

  // ---------------------------------------------------------------- Splitting undoes joining

  /** One more character in front of a text's lines. */
  function Cons(c: char, lines: seq<string>): seq<string>
    requires lines != []
  {
    if c == '\n' then [""] + lines else [[c] + lines[0]] + lines[1..]
  }

  lemma ConsLine(c: char, a: seq<string>, b: seq<string>)
    requires a != []
    ensures Cons(c, a + b) == Cons(c, a) + b
  {
    assert (a + b)[1..] == a[1..] + b;
    Regroup(if c == '\n' then [""] else [[c] + a[0]], if c == '\n' then a else a[1..], b);
  }

  lemma {:induction false} LinesAcrossNewline(a: string, b: string)
    ensures Lines(a + "\n" + b) == Lines(a) + Lines(b)
  {
    if a == "" {
      assert a + "\n" + b == "\n" + b && ("\n" + b)[1..] == b;
    } else {
      var s, t := a + "\n" + b, a[1..];
      LinesAcrossNewline(t, b);
      assert s[0] == a[0] && s[1..] == t + "\n" + b;
      ConsLine(a[0], Lines(t), Lines(b));
    }
  }

  /** A separator line between two texts is a separator between their lines. */
  lemma LinesAcrossSeparator(a: string, b: string)
    ensures Lines(a + "\n---\n" + b) == Lines(a) + ["---"] + Lines(b)
  {
    assert a + "\n---\n" + b == a + "\n" + ("---" + "\n" + b);
    LinesAcrossNewline(a, "---" + "\n" + b);
    LinesAcrossNewline("---", b);
    SplitWithoutSeparator("---", '\n');
  }

  /** Reading a whole document's lines only extends the current document. */
  lemma {:induction false} CutThroughWhole(lines: seq<string>, rest: seq<string>, cur: seq<string>, sep: string -> bool)
    requires forall l :: l in lines ==> !sep(l)
    ensures Cut(lines + rest, cur, sep) == Cut(rest, cur + lines, sep)
  {
    if lines == [] {
      assert lines + rest == rest && cur + lines == cur;
    } else {
      CutThroughWhole(lines[1..], rest, cur + [lines[0]], sep);
      assert (lines + rest)[1..] == lines[1..] + rest;
      assert cur + [lines[0]] + lines[1..] == cur + lines;
    }
  }

  function AllLines(docs: seq<string>): seq<seq<string>> { seq(|docs|, i requires 0 <= i < |docs| => Lines(docs[i])) }

  lemma CutAtSeparator(first: seq<string>, line: string, rest: seq<string>, sep: string -> bool)
    requires sep(line) && forall l :: l in first ==> !sep(l)
    ensures Cut(first + [line] + rest, [], sep) == [first] + Cut(rest, [], sep)
  {
    var tail := [line] + rest;
    CutThroughWhole(first, tail, [], sep);
    assert first + [line] + rest == first + tail && [] + first == first;
    assert tail[1..] == rest;
  }

  lemma CutFirst(doc: string, rest: string, sep: string -> bool)
    requires sep("---") && Whole(doc, sep)
    ensures Cut(Lines(doc + "\n---\n" + rest), [], sep) == [Lines(doc)] + Cut(Lines(rest), [], sep)
  {
    LinesAcrossSeparator(doc, rest);
    CutAtSeparator(Lines(doc), "---", Lines(rest), sep);
  }

  lemma CutOnly(doc: string, sep: string -> bool)
    requires Whole(doc, sep)
    ensures Cut(Lines(doc), [], sep) == [Lines(doc)]
  {
    var first := Lines(doc);
    CutThroughWhole(first, [], [], sep);
    assert first + [] == first && [] + first == first;
  }

  lemma {:induction false} CutOfJoin(docs: seq<string>, sep: string -> bool)
    requires docs != [] && sep("---") && forall i :: 0 <= i < |docs| ==> Whole(docs[i], sep)
    ensures Cut(Lines(Join(docs, "\n---\n")), [], sep) == AllLines(docs)
  {
    if |docs| == 1 {
      CutOnly(docs[0], sep);
    } else {
      CutOfJoin(docs[1..], sep);
      CutFirst(docs[0], Join(docs[1..], "\n---\n"), sep);
      assert AllLines(docs) == [Lines(docs[0])] + AllLines(docs[1..]);
    }
  }

  lemma TextsOfLines(docs: seq<string>)
    ensures Texts(AllLines(docs)) == docs
  {
    forall i | 0 <= i < |docs| ensures Join(Lines(docs[i]), "\n") == docs[i] {
      JoinSplit(docs[i], '\n');
    }
  }

  lemma SplitOfJoin(docs: seq<string>, sep: string -> bool)
    requires docs != [] && sep("---") && forall i :: 0 <= i < |docs| ==> Whole(docs[i], sep)
    ensures SplitDocs(Join(docs, "\n---\n"), sep) == docs
  {
    CutOfJoin(docs, sep);
    TextsOfLines(docs);
  }

  // ---------------------------------------------------------------- Every document cut out is whole

  ghost predicate Clean(lines: seq<string>, sep: string -> bool) {
    forall l :: l in lines ==> !sep(l) && '\n' !in l
  }

  lemma {:induction false} CutIsClean(lines: seq<string>, cur: seq<string>, sep: string -> bool)
    requires Clean(cur, sep) && forall l :: l in lines ==> '\n' !in l
    ensures forall g :: g in Cut(lines, cur, sep) ==> Clean(g, sep)
  {
    if lines != [] {
      if sep(lines[0]) {
        CutIsClean(lines[1..], [], sep);
      } else {
        CutIsClean(lines[1..], cur + [lines[0]], sep);
      }
    }
  }

  lemma CleanIsWhole(g: seq<string>, sep: string -> bool)
    requires Clean(g, sep) && !sep("")
    ensures Whole(Join(g, "\n"), sep)
  {
    if g == [] {
      assert Lines("") == [""];
    } else {
      SplitJoin(g, '\n');
    }
  }

  lemma SplitGivesWhole(s: string, sep: string -> bool)
    requires !sep("")
    ensures forall i :: 0 <= i < |SplitDocs(s, sep)| ==> Whole(SplitDocs(s, sep)[i], sep)
  {
    var groups := Cut(Lines(s), [], sep);
    CutIsClean(Lines(s), [], sep);
    forall i | 0 <= i < |groups| ensures Whole(Texts(groups)[i], sep) {
      assert groups[i] in groups;
      CleanIsWhole(groups[i], sep);
    }
  }

  lemma SplitOfEmpty(sep: string -> bool)
    requires !sep("")
    ensures SplitDocs("", sep) == [""]
  {
    assert Lines("") == [""];
    assert [] + [""] == [""];
    assert Cut([""], [], sep) == Cut([""][1..], [""], sep) == [[""]];
  }

  /** The joined stream is cut back into the same documents exactly when there is one and all are whole. */
  lemma RoundTripIff(docs: seq<string>, sep: string -> bool)
    requires sep("---") && !sep("")
    ensures SplitDocs(Join(docs, "\n---\n"), sep) == docs <==>
            docs != [] && forall i :: 0 <= i < |docs| ==> Whole(docs[i], sep)
  {
    if docs == [] {
      SplitOfEmpty(sep);
    } else if forall i :: 0 <= i < |docs| ==> Whole(docs[i], sep) {
      SplitOfJoin(docs, sep);
    } else {
      SplitGivesWhole(Join(docs, "\n---\n"), sep);
    }
  }

  lemma SeparatorReads()
    ensures IsSeparator("---") && !IsSeparator("")
  {
    TrimShape("---", IsSpace);
    TrimShape("", IsSpace);
  }

  /** The same for the separator test the code uses. */
  lemma YamlRoundTripIff(docs: seq<string>)
    ensures SplitDocs(Join(docs, "\n---\n"), IsSeparator) == docs <==>
            docs != [] && forall i, l :: 0 <= i < |docs| && l in Lines(docs[i]) ==> TrimSpace(l) != "---"
  {
    SeparatorReads();
    RoundTripIff(docs, IsSeparator);
  }

  /** A separator at the end starts no document. */
  lemma TrailingSeparator(doc: string, sep: string -> bool)
    requires sep("---") && Whole(doc, sep)
    ensures SplitDocs(doc + "\n---", sep) == [doc]
  {
    SeparatorLine(doc, "---");
    CutAtSeparator(Lines(doc), "---", [], sep);
    assert Lines(doc) + ["---"] + [] == Lines(doc) + ["---"];
    assert Cut(Lines(doc) + ["---"], [], sep) == [Lines(doc)];
    JoinSplit(doc, '\n');
  }

  /** One at the beginning ends an empty document. */
  lemma LeadingSeparator(doc: string, sep: string -> bool)
    requires sep("---") && Whole(doc, sep)
    ensures SplitDocs("---\n" + doc, sep) == ["", doc]
  {
    SeparatorLine("---", doc);
    CutAtSeparator([], "---", Lines(doc), sep);
    CutOnly(doc, sep);
    assert [] + ["---"] + Lines(doc) == ["---"] + Lines(doc);
    assert Cut(["---"] + Lines(doc), [], sep) == [[], Lines(doc)];
    JoinSplit(doc, '\n');
  }

  lemma SeparatorLine(a: string, b: string)
    ensures b == "---" ==> Lines(a + "\n---") == Lines(a) + ["---"]
    ensures a == "---" ==> Lines("---\n" + b) == ["---"] + Lines(b)
  {
    SplitWithoutSeparator("---", '\n');
    LinesAcrossNewline(a, b);
    assert a + "\n---" == a + "\n" + "---" && "---\n" + b == "---" + "\n" + b;
  }

  // ---------------------------------------------------------------- The code

  method SplitYamlDocs(s: string) returns (docs: seq<string>)
    ensures docs == SplitDocs(s, IsSeparator)
  {
    var lines := Split(s, '\n');
    docs := [];
    var cur: seq<string> := [];
    ghost var all := Cut(lines, [], IsSeparator);
    ghost var done: seq<seq<string>> := [];
    for i := 0 to |lines|
      invariant docs == Texts(done)
      invariant done + Cut(lines[i..], cur, IsSeparator) == all
    {
      assert lines[i..][1..] == lines[i + 1..];
      if IsSeparator(lines[i]) {
        docs := docs + [Join(cur, "\n")];
        done := done + [cur];
        cur := [];
        continue;
      }
      cur := cur + [lines[i]];
    }
    if |cur| > 0 {
      docs := docs + [Join(cur, "\n")];
      done := done + [cur];
    }
    assert done == all;
  }

  /** The loop that writes the rendered templates in key order. */
  method JoinRendered(docs: seq<string>) returns (out: string)
    ensures out == Join(docs, "\n---\n")
  {
    out := "";
    for i := 0 to |docs|
      invariant out == Join(docs[..i], "\n---\n")
    {
      JoinLast(docs[..i], docs[i], "\n---\n");
      assert docs[..i + 1] == docs[..i] + [docs[i]];
      if i > 0 {
        out := out + "\n---\n";
      }
      out := out + docs[i];
    }
    assert docs[..|docs|] == docs;
  }

  lemma {:induction false} JoinLast(parts: seq<string>, last: string, sep: string)
    ensures Join(parts + [last], sep) == if parts == [] then last else Join(parts, sep) + sep + last
  {
    if parts == [] {
      assert parts + [last] == [last];
    } else {
      var rest := parts[1..];
      JoinLast(rest, last, sep);
      assert (parts + [last])[1..] == rest + [last];
      assert Join(parts + [last], sep) == parts[0] + sep + Join(rest + [last], sep);
      if rest != [] {
        assert parts[0] + sep + (Join(rest, sep) + sep + last) == (parts[0] + sep + Join(rest, sep)) + sep + last;
      }
    }
  }
}
