/**
 Doc comments: one loop over the attributes of an item, with pushes and pops, and the normal form
 that it leaves.
 */
module DocComment {
  import opened Bytes
  import opened Whitespace

  /** An attribute: a doc string, or one that the loop skips. */
  datatype Attribute = Doc(value: string) | Other

  /** The doc strings, trimmed. */
  function TrimmedDocs(attrs: seq<Attribute>): (lines: seq<string>)
    ensures AllTrimmed(lines)
  {
    if attrs == [] then []
    else
      var front := TrimmedDocs(attrs[..|attrs| - 1]);
      match attrs[|attrs| - 1]
      case Doc(value) => front + [Trim(value)]
      case Other => front
  }

  predicate AllTrimmed(lines: seq<string>) {
    forall i :: 0 <= i < |lines| ==> IsTrimmed(lines[i])
  }

  /** The maximal runs of lines that are not empty. */
  function Paragraphs(lines: seq<string>): (ps: seq<seq<string>>)
    ensures forall i :: 0 <= i < |ps| ==> ps[i] != [] && "" !in ps[i]
    ensures lines != [] && lines[|lines| - 1] != "" ==> ps != []
  {
    if lines == [] then []
    else
      var front, last := lines[..|lines| - 1], lines[|lines| - 1];
      var ps := Paragraphs(front);
      if last == "" then ps
      else if front == [] || front[|front| - 1] == "" then ps + [[last]]
      else ps[..|ps| - 1] + [ps[|ps| - 1] + [last]]
  }

  /** The paragraphs with one empty line between neighbours. */
  function Layout(ps: seq<seq<string>>): seq<string> {
    if ps == [] then []
    else if |ps| == 1 then ps[0]
    else Layout(ps[..|ps| - 1]) + [""] + ps[|ps| - 1]
  }

  /** The normal form: no empty line first, last, or next to another. */
  predicate NoDoubled(lines: seq<string>) {
    forall i :: 0 <= i < |lines| - 1 ==> lines[i] != "" || lines[i + 1] != ""
  }

  predicate IsNormal(lines: seq<string>) {
    NoDoubled(lines) && (lines != [] ==> lines[0] != "" && lines[|lines| - 1] != "")
  }

  // ----- the loop -----

  lemma LayoutStartsParagraph(ps: seq<seq<string>>, last: string)
    ensures Layout(ps + [[last]]) == (if ps == [] then [] else Layout(ps) + [""]) + [last]
  {
    assert (ps + [[last]])[..|ps|] == ps;
  }

  lemma LayoutSnoc(front: seq<seq<string>>, p: seq<string>)
    ensures Layout(front + [p]) == if front == [] then p else Layout(front) + [""] + p
  {
    assert (front + [p])[..|front|] == front;
  }

  lemma LayoutGrowsParagraph(ps: seq<seq<string>>, last: string)
    requires ps != []
    ensures Layout(ps[..|ps| - 1] + [ps[|ps| - 1] + [last]]) == Layout(ps) + [last]
  {
    hide *;
    var front, p := ps[..|ps| - 1], ps[|ps| - 1];
    SplitLast(ps);
    LayoutSnoc(front, p);
    LayoutSnoc(front, p + [last]);
    if front != [] {
      Regroup3(Layout(front) + [""], p, [last]);
    }
  }

  lemma SplitLast<T>(s: seq<T>)
    requires s != []
    ensures s == s[..|s| - 1] + [s[|s| - 1]]
  {
  }

  lemma Regroup3(a: seq<string>, b: seq<string>, c: seq<string>)
    ensures a + b + c == a + (b + c)
  {
  }

  /** What the loop holds: the layout so far, and an empty line if it waits for a new paragraph. */
  function Held(lines: seq<string>): seq<string> {
    Layout(Paragraphs(lines))
    + if Paragraphs(lines) != [] && lines[|lines| - 1] == "" then [""] else []
  }

  lemma HeldIsEmpty(lines: seq<string>)
    requires lines == []
    ensures Paragraphs(lines) == [] && Held(lines) == []
  {
  }

  lemma {:induction false} LayoutEndsInWord(ps: seq<seq<string>>)
    requires forall i :: 0 <= i < |ps| ==> ps[i] != [] && "" !in ps[i]
    ensures Layout(ps) == [] <==> ps == []
    ensures ps != [] ==> Layout(ps)[|Layout(ps)| - 1] != "" && Layout(ps)[0] != ""
  {
    if |ps| > 1 {
      var n := |ps| - 1;
      LayoutEndsInWord(ps[..n]);
      assert Layout(ps)[|Layout(ps)| - 1] == ps[n][|ps[n]| - 1];
      assert Layout(ps)[0] == Layout(ps[..n])[0];
    } else if |ps| == 1 {
      assert ps[0][|ps[0]| - 1] in ps[0] && ps[0][0] in ps[0];
    }
  }

  lemma EmptyLineIsSkipped(lines: seq<string>)
    ensures Paragraphs(lines + [""]) == Paragraphs(lines)
  {
    assert (lines + [""])[..|lines|] == lines;
  }

  lemma ParagraphStep(front: seq<string>, last: string)
    requires last != ""
    ensures Paragraphs(front + [last])
         == if front == [] || front[|front| - 1] == "" then Paragraphs(front) + [[last]]
            else Paragraphs(front)[..|Paragraphs(front)| - 1] + [Paragraphs(front)[|Paragraphs(front)| - 1] + [last]]
  {
    assert (front + [last])[..|front|] == front;
  }

  /** One step of the loop. */
  lemma HeldStep(lines: seq<string>, line: string)
    ensures var held := Held(lines);
      Held(lines + [line]) == if line != "" then held + [line]
                              else if held != [] && held[|held| - 1] != "" then held + [""] else held
  {
    if line == "" {
      EmptyStep(lines);
    } else {
      TextStep(lines, line);
    }
  }

  lemma EmptyStep(lines: seq<string>)
    ensures var held := Held(lines);
      Held(lines + [""]) == if held != [] && held[|held| - 1] != "" then held + [""] else held
  {
    var ps := Paragraphs(lines);
    LayoutEndsInWord(ps);
    EmptyLineIsSkipped(lines);
    hide Layout, Paragraphs;
    assert lines != [] ==> lines[|lines| - 1] == (lines + [""])[|lines| - 1];
    if ps == [] {
      assert Held(lines) == Held(lines + [""]) == [];
    } else {
      assert Held(lines + [""]) == Layout(ps) + [""];
      EmptyHasNone(lines);
    }
  }

  lemma EmptyHasNone(lines: seq<string>)
    requires Paragraphs(lines) != []
    ensures lines != []
    ensures Layout(Paragraphs(lines)) + [] == Layout(Paragraphs(lines))
  {
  }

  lemma TextStep(lines: seq<string>, line: string)
    requires line != ""
    ensures Held(lines + [line]) == Held(lines) + [line]
  {
    var ps := Paragraphs(lines);
    ParagraphStep(lines, line);
    HeldIsEmpty([]);
    LayoutEndsInWord(ps);
    if lines == [] || lines[|lines| - 1] == "" {
      LayoutStartsParagraph(ps, line);
    } else {
      LayoutGrowsParagraph(ps, line);
    }
    hide Layout, Paragraphs;
    assert forall x: seq<string> {:trigger x + []} :: x + [] == x;
    if ps != [] {
      EmptyHasNone(lines);
    }
  }

  /** The text joins lines in normal form that have the paragraphs of the given ones. */
  ghost predicate IsComment(text: string, lines: seq<string>) {
    exists normal :: IsNormal(normal) && Paragraphs(normal) == Paragraphs(lines) && text == Join(normal, "\n")
  }

  function Extracted(lines: seq<string>): string {
    Join(Layout(Paragraphs(lines)), "\n")
  }

  lemma DocsStep(attrs: seq<Attribute>, i: nat)
    requires i < |attrs|
    ensures TrimmedDocs(attrs[..i + 1]) == match attrs[i]
      case Doc(value) => TrimmedDocs(attrs[..i]) + [Trim(value)]
      case Other => TrimmedDocs(attrs[..i])
  {
    hide Trim;
    assert attrs[..i + 1][..i] == attrs[..i];
  }

  method ExtractDocComment(attrs: seq<Attribute>) returns (text: string)
    ensures IsComment(text, TrimmedDocs(attrs))
    ensures text == Extracted(TrimmedDocs(attrs))
  {
    var docs: seq<string> := [];
    var i := 0;
    assert attrs[..0] == [] && TrimmedDocs([]) == [];
    HeldIsEmpty([]);
    hide Held, TrimmedDocs, Paragraphs, Layout, Trim, Join, IsComment;
    while i < |attrs|
      invariant i <= |attrs|
      invariant docs == Held(TrimmedDocs(attrs[..i]))
    {
      DocsStep(attrs, i);
      match attrs[i] {
        case Doc(value) =>
          var doc := Trim(value);
          HeldStep(TrimmedDocs(attrs[..i]), doc);
          if doc == "" {
            if docs != [] && docs[|docs| - 1] != "" {
              docs := docs + [""];
            }
          } else {
            docs := docs + [doc];
          }
        case Other =>
      }
      i := i + 1;
    }
    assert attrs[..i] == attrs;
    while docs != [] && docs[|docs| - 1] == ""
      invariant var layout := Layout(Paragraphs(TrimmedDocs(attrs))); docs == layout || docs == layout + [""]
      decreases |docs|
    {
      docs := docs[..|docs| - 1];
    }
    text := Join(docs, "\n");
    ExtractedIsNormal(TrimmedDocs(attrs));
  }

  lemma ExtractedIsNormal(lines: seq<string>)
    ensures IsComment(Extracted(lines), lines)
  {
    ExtractedIsTheNormalForm(lines, Layout(Paragraphs(lines)));
    hide IsNormal, Paragraphs, Layout;
  }

  // ----- what the normal form is -----

  /** The lines that are not empty, in order. */
  function NonEmpty(lines: seq<string>): seq<string> {
    if lines == [] then []
    else NonEmpty(lines[..|lines| - 1]) + if lines[|lines| - 1] == "" then [] else [lines[|lines| - 1]]
  }

  function Flat(ps: seq<seq<string>>): seq<string> {
    if ps == [] then [] else Flat(ps[..|ps| - 1]) + ps[|ps| - 1]
  }

  /** The paragraphs hold the lines that are not empty, in order. */
  lemma {:induction false} ParagraphsKeepLines(lines: seq<string>)
    ensures Flat(Paragraphs(lines)) == NonEmpty(lines)
  {
    if lines != [] {
      var front, last := lines[..|lines| - 1], lines[|lines| - 1];
      ParagraphsKeepLines(front);
      SplitLast(lines);
      var ps := Paragraphs(front);
      if last == "" {
        EmptyLineIsSkipped(front);
        assert NonEmpty(front) + [] == NonEmpty(front);
      } else {
        ParagraphStep(front, last);
        hide Paragraphs, Flat;
        FlatSnoc(ps, [last]);
        if front != [] && front[|front| - 1] != "" {
          var n := |ps| - 1;
          SplitLast(ps);
          FlatSnoc(ps[..n], ps[n]);
          FlatSnoc(ps[..n], ps[n] + [last]);
          Regroup3(Flat(ps[..n]), ps[n], [last]);
        }
      }
    }
  }

  lemma FlatSnoc(ps: seq<seq<string>>, p: seq<string>)
    ensures Flat(ps + [p]) == Flat(ps) + p
  {
    assert (ps + [p])[..|ps|] == ps;
  }

  /** Laying paragraphs out and reading them again gives the paragraphs back. */
  lemma {:induction false} ParagraphsOfLayout(ps: seq<seq<string>>)
    requires forall i :: 0 <= i < |ps| ==> ps[i] != [] && "" !in ps[i]
    ensures Paragraphs(Layout(ps)) == ps
  {
    hide *;
    if ps == [] {
      NoParagraphs();
    } else {
      var n := |ps| - 1;
      var front, last := ps[..n], ps[n];
      ParagraphsOfLayout(front);
      LayoutEndsInWord(front);
      SplitLast(ps);
      LayoutSnoc(front, last);
      if n == 0 {
        AddParagraph([], last);
        NoParagraphs();
        assert [] + last == last && front == [];
      } else {
        AddParagraph(Layout(front) + [""], last);
        EmptyLineIsSkipped(Layout(front));
      }
    }
  }

  lemma NoParagraphs()
    ensures Paragraphs([]) == [] && Layout([]) == []
  {
  }

  /** Lines that are not empty, after an empty line or first, make one paragraph. */
  lemma {:induction false} AddParagraph(before: seq<string>, p: seq<string>)
    requires p != [] && "" !in p && (before == [] || before[|before| - 1] == "")
    ensures Paragraphs(before + p) == Paragraphs(before) + [p]
  {
    hide *;
    var n := |p| - 1;
    assert p[n] in p;
    SplitLast(p);
    Regroup3(before, p[..n], [p[n]]);
    ParagraphStep(before + p[..n], p[n]);
    if n == 0 {
      assert before + p[..0] == before && p == [p[0]];
    } else {
      AddParagraph(before, p[..n]);
      assert p[n - 1] in p;
      ReplaceLast(Paragraphs(before), p[..n], p[n]);
    }
  }

  lemma ReplaceLast(ps: seq<seq<string>>, p: seq<string>, last: string)
    ensures (ps + [p])[..|ps + [p]| - 1] + [(ps + [p])[|ps + [p]| - 1] + [last]] == ps + [p + [last]]
  {
  }

  lemma {:induction false} LayoutIsNormal(ps: seq<seq<string>>)
    requires forall i :: 0 <= i < |ps| ==> ps[i] != [] && "" !in ps[i]
    ensures IsNormal(Layout(ps))
  {
    LayoutEndsInWord(ps);
    if ps != [] {
      var n := |ps| - 1;
      if n > 0 {
        LayoutIsNormal(ps[..n]);
        LayoutEndsInWord(ps[..n]);
      }
    }
  }

  /** A normal list is the layout of its own paragraphs. */
  lemma {:induction false} NormalIsLayout(lines: seq<string>)
    requires NoDoubled(lines) && (lines != [] ==> lines[0] != "")
    ensures Held(lines) == lines
  {
    if lines != [] {
      var n := |lines| - 1;
      var front, last := lines[..n], lines[n];
      NormalIsLayout(front);
      HeldStep(front, last);
      assert lines == front + [last];
      if last == "" {
        assert front[n - 1] != "";
      }
    }
  }

  /**
   The lines of the comment are the one normal list with the paragraphs of the input: the same
   lines in order, with an empty line between two neighbours exactly where the input has one or more.
   */
  lemma ExtractedIsTheNormalForm(lines: seq<string>, normal: seq<string>)
    ensures normal == Layout(Paragraphs(lines)) <==> IsNormal(normal) && Paragraphs(normal) == Paragraphs(lines)
    ensures NonEmpty(Layout(Paragraphs(lines))) == NonEmpty(lines)
  {
    var ps := Paragraphs(lines);
    ParagraphsOfLayout(ps);
    LayoutIsNormal(ps);
    ParagraphsKeepLines(lines);
    ParagraphsKeepLines(Layout(ps));
    hide Layout;
    if IsNormal(normal) && Paragraphs(normal) == ps {
      NormalIsLayout(normal);
      NormalHoldsNoMore(normal);
    }
  }

  lemma NormalHoldsNoMore(normal: seq<string>)
    requires IsNormal(normal)
    ensures Held(normal) == Layout(Paragraphs(normal))
  {
    assert forall s: seq<string> :: s + [] == s;
  }

  // ----- lines of text -----

  /** The pieces between newlines: one more than there are newlines. */
  function SplitLines(text: string): (lines: seq<string>)
    ensures lines != []
  {
    Lines(text) + [Tail(text)]
  }

  predicate OneLine(line: string) { NoNewline(line) }

  lemma SplitAtNewline(line: string, rest: string)
    requires OneLine(line)
    ensures SplitLines(line + [NEWLINE] + rest) == [line] + SplitLines(rest)
    ensures SplitLines(line) == [line]
  {
    var text, n := line + [NEWLINE] + rest, |line|;
    assert text[..n] == line && text[n + 1..] == rest;
    FirstNewlineAt(text, n);
    SplitFirst(text);
    NoFirstNewline(line);
    SplitNone(line);
    hide Lines, Tail, FirstNewline;
    assert [line] + Lines(rest) + [Tail(rest)] == [line] + (Lines(rest) + [Tail(rest)]);
  }

  /** Joining the lines gives the text back, and no line has a newline. */
  lemma {:induction false} JoinSplit(text: string)
    ensures Join(SplitLines(text), "\n") == text
    ensures forall i :: 0 <= i < |SplitLines(text)| ==> OneLine(SplitLines(text)[i])
    decreases |text|
  {
    var n := FirstNewline(text);
    if n < |text| {
      var line, rest := text[..n], text[n + 1..];
      JoinSplit(rest);
      SplitAtNewline(line, rest);
      hide SplitLines, OneLine, FirstNewline;
      CutAt(text, n);
    } else {
      assert text[..n] == text;
      SplitAtNewline(text, "");
    }
  }

  /** The lines of two texts that a newline joins. */
  lemma {:induction false} SplitAppends(a: string, b: string)
    ensures SplitLines(a + [NEWLINE] + b) == SplitLines(a) + SplitLines(b)
    decreases |a|
  {
    hide SplitLines, OneLine;
    var n := FirstNewline(a);
    SplitAtFirst(a, b, n);
    if n < |a| {
      SplitAppends(a[n + 1..], b);
      SplitAtNewline(a[..n], a[n + 1..]);
      SplitAtNewline(a[..n], a[n + 1..] + [NEWLINE] + b);
    } else {
      SplitAtNewline(a, b);
    }
  }

  lemma SplitAtFirst(a: string, b: string, n: nat)
    requires n == FirstNewline(a)
    ensures n < |a| ==> a == a[..n] + [NEWLINE] + a[n + 1..] && OneLine(a[..n])
    ensures n < |a| ==> a + [NEWLINE] + b == a[..n] + [NEWLINE] + (a[n + 1..] + [NEWLINE] + b)
    ensures n == |a| ==> OneLine(a)
  {
    hide FirstNewline;
    if n == |a| {
      assert a[..n] == a;
    } else {
      CutAt(a, n);
      Regroup(a[..n], [NEWLINE], a[n + 1..], [NEWLINE], b);
    }
  }

  lemma CutAt(a: string, n: nat)
    requires n < |a|
    ensures a == a[..n] + [a[n]] + a[n + 1..]
  {
  }

  lemma Regroup(a: string, b: string, c: string, d: string, e: string)
    ensures a + b + c + d + e == a + b + (c + d + e)
  {
  }

  function SplitAll(docs: seq<string>): seq<string> {
    if docs == [] then [] else SplitAll(docs[..|docs| - 1]) + SplitLines(docs[|docs| - 1])
  }

  lemma {:induction false} SplitOfJoin(docs: seq<string>)
    requires docs != []
    ensures SplitLines(Join(docs, "\n")) == SplitAll(docs)
  {
    var n := |docs| - 1;
    var front, last := docs[..n], docs[n];
    assert docs == front + [last];
    JoinAppends(front, last, "\n");
    if n == 0 {
      assert SplitAll(front) == [] && [] + SplitLines(last) == SplitLines(last);
    } else {
      SplitOfJoin(front);
      SplitAppends(Join(front, "\n"), last);
      assert "\n" == [NEWLINE];
    }
  }

  lemma {:induction false} SplitAllOneLine(docs: seq<string>)
    requires forall i :: 0 <= i < |docs| ==> OneLine(docs[i])
    ensures SplitAll(docs) == docs
  {
    if docs != [] {
      var n := |docs| - 1;
      SplitAllOneLine(docs[..n]);
      SplitAtNewline(docs[n], "");
      assert docs == docs[..n] + [docs[n]];
    }
  }

  // ----- reading the comment again -----

  function TrimAll(lines: seq<string>): (r: seq<string>)
    ensures |r| == |lines| && forall i :: 0 <= i < |lines| ==> r[i] == Trim(lines[i])
  {
    if lines == [] then [] else TrimAll(lines[..|lines| - 1]) + [Trim(lines[|lines| - 1])]
  }

  /** One doc attribute for each line. */
  function AsAttributes(lines: seq<string>): seq<Attribute> {
    if lines == [] then [] else AsAttributes(lines[..|lines| - 1]) + [Doc(lines[|lines| - 1])]
  }

  lemma {:induction false} AttributesReadAsLines(lines: seq<string>)
    ensures TrimmedDocs(AsAttributes(lines)) == TrimAll(lines)
  {
    if lines != [] {
      var n := |lines| - 1;
      AttributesReadAsLines(lines[..n]);
      var front := AsAttributes(lines[..n]);
      assert (front + [Doc(lines[n])])[..|front|] == front;
    }
  }

  lemma TrimmedIsFixed(text: string)
    requires IsTrimmed(text)
    ensures Trim(text) == text
  {
  }

  lemma TrimKeepsOneLine(line: string)
    requires OneLine(line)
    ensures OneLine(Trim(line))
  {
    var from, to := TrimIsCut(line);
    hide Trim;
    forall i | 0 <= i < |Trim(line)| ensures Trim(line)[i] != NEWLINE {
      assert Trim(line)[i] == line[from + i];
    }
  }

  lemma {:induction false} NonEmptyMembers(lines: seq<string>)
    ensures forall x :: x in NonEmpty(lines) <==> x in lines && x != ""
  {
    if lines != [] {
      var n := |lines| - 1;
      NonEmptyMembers(lines[..n]);
      assert lines == lines[..n] + [lines[n]];
    }
  }

  /** The comment has the trimmed lines that are not empty, and nothing else but empty lines. */
  lemma LayoutMembers(lines: seq<string>, x: string)
    requires x != ""
    ensures x in Layout(Paragraphs(lines)) <==> x in lines
  {
    ExtractedIsTheNormalForm(lines, []);
    NonEmptyMembers(lines);
    NonEmptyMembers(Layout(Paragraphs(lines)));
  }

  function ReadAgain(text: string): string {
    Extracted(TrimmedDocs(AsAttributes(SplitLines(text))))
  }

  /** A text is its own comment exactly when it is empty, or its lines are trimmed and normal. */
  lemma FixedExactly(text: string)
    ensures ReadAgain(text) == text <==> text == "" || (AllTrimmed(SplitLines(text)) && IsNormal(SplitLines(text)))
  {
    var lines := SplitLines(text);
    var trimmed := TrimAll(lines);
    var again := Layout(Paragraphs(trimmed));
    AttributesReadAsLines(lines);
    JoinSplit(text);
    ExtractedIsTheNormalForm(trimmed, again);
    hide SplitLines, Paragraphs, Layout, AllTrimmed, IsNormal;
    if AllTrimmed(lines) && IsNormal(lines) {
      TrimmedAreFixed(lines);
      ExtractedIsTheNormalForm(lines, lines);
    } else if text == "" {
      EmptyTextIsFixed();
    } else if ReadAgain(text) == text {
      AgainIsTidy(lines);
      SplitOfJoin(again);
      SplitAllOneLine(again);
    }
  }

  lemma EmptyTextIsFixed()
    ensures ReadAgain("") == ""
  {
    SplitAtNewline("", "");
    AttributesReadAsLines([""]);
    assert TrimAll([""]) == [""];
    assert Paragraphs([""]) == Paragraphs([""][..0]) == [];
  }

  lemma TrimmedAreFixed(lines: seq<string>)
    requires AllTrimmed(lines)
    ensures TrimAll(lines) == lines
  {
    forall i | 0 <= i < |lines| ensures Trim(lines[i]) == lines[i] {
      TrimmedIsFixed(lines[i]);
    }
  }

  /** The lines of a comment made of single lines are trimmed, normal, and single. */
  lemma AgainIsTidy(lines: seq<string>)
    requires forall i :: 0 <= i < |lines| ==> OneLine(lines[i])
    ensures var again := Layout(Paragraphs(TrimAll(lines)));
      AllTrimmed(again) && IsNormal(again) && forall i :: 0 <= i < |again| ==> OneLine(again[i])
  {
    var trimmed := TrimAll(lines);
    var again := Layout(Paragraphs(trimmed));
    ExtractedIsTheNormalForm(trimmed, again);
    forall i | 0 <= i < |again| ensures IsTrimmed(again[i]) && OneLine(again[i]) {
      if again[i] != "" {
        LayoutMembers(trimmed, again[i]);
        var j :| 0 <= j < |trimmed| && trimmed[j] == again[i];
        TrimKeepsOneLine(lines[j]);
      }
    }
  }

  // ----- when reading again changes nothing -----

  /** The lines inside one doc string are trimmed, and no two of them next to each other are empty. */
  predicate Tidy(doc: string) {
    AllTrimmed(SplitLines(doc)) && NoDoubled(SplitLines(doc))
  }

  lemma NoDoubledAppends(a: seq<string>, b: seq<string>)
    requires a != [] && b != []
    ensures NoDoubled(a + b) <==> NoDoubled(a) && NoDoubled(b) && (a[|a| - 1] != "" || b[0] != "")
  {
    var c := a + b;
    if NoDoubled(c) {
      forall i | 0 <= i < |a| - 1 ensures a[i] != "" || a[i + 1] != "" { assert c[i] == a[i] && c[i + 1] == a[i + 1]; }
      forall i | 0 <= i < |b| - 1 ensures b[i] != "" || b[i + 1] != "" { assert c[|a| + i] == b[i] && c[|a| + (i + 1)] == b[i + 1]; }
      assert c[|a| - 1] == a[|a| - 1] && c[(|a| - 1) + 1] == b[0];
    }
  }

  lemma {:induction false} TailIsOpen(text: string)
    requires text != [] && text[|text| - 1] != NEWLINE
    ensures Tail(text) != []
    decreases |text|
  {
    var n := FirstNewline(text);
    if n < |text| {
      SplitFirst(text);
      hide Tail, FirstNewline;
      assert n < |text| - 1;
      TailIsOpen(text[n + 1..]);
    } else {
      SplitNone(text);
    }
  }

  /** A trimmed doc string that is not empty starts and ends with a line that is not empty. */
  lemma EndsOfDoc(doc: string)
    requires IsTrimmed(doc)
    ensures var lines := SplitLines(doc);
      (lines[0] == "" <==> doc == "") && (lines[|lines| - 1] == "" <==> doc == "") && (doc == "" ==> lines == [""])
  {
    SplitAtNewline("", "");
    if doc != "" {
      TailIsOpen(doc);
      JoinSplit(doc);
      var n := FirstNewline(doc);
      if n < |doc| {
        SplitFirst(doc);
      } else {
        SplitNone(doc);
      }
    }
  }

  lemma {:induction false} SplitAllEnds(docs: seq<string>)
    requires docs != [] && AllTrimmed(docs)
    ensures var all := SplitAll(docs);
      all != [] && (all[0] == "" <==> docs[0] == "") && (all[|all| - 1] == "" <==> docs[|docs| - 1] == "")
  {
    var n := |docs| - 1;
    EndsOfDoc(docs[n]);
    hide SplitLines;
    if n > 0 {
      SplitAllEnds(docs[..n]);
    } else {
      assert SplitAll(docs[..n]) == [];
    }
  }

  lemma {:induction false} SplitAllNoDoubled(docs: seq<string>)
    requires AllTrimmed(docs) && NoDoubled(docs)
    ensures NoDoubled(SplitAll(docs)) <==> forall i :: 0 <= i < |docs| ==> NoDoubled(SplitLines(docs[i]))
  {
    if docs != [] {
      var n := |docs| - 1;
      var front, last := docs[..n], docs[n];
      NoDoubledFront(docs);
      assert AllTrimmed(front) && IsTrimmed(last);
      hide SplitLines, NoDoubled, AllTrimmed, IsTrimmed;
      SplitAllNoDoubled(front);
      EndsOfDoc(last);
      if n > 0 {
        SplitAllEnds(front);
        NoDoubledAppends(SplitAll(front), SplitLines(last));
      } else {
        assert SplitAll(front) == [] && [] + SplitLines(last) == SplitLines(last);
      }
      assert forall i :: 0 <= i < n ==> front[i] == docs[i];
    }
  }

  lemma NoDoubledFront(docs: seq<string>)
    requires docs != [] && NoDoubled(docs)
    ensures var n := |docs| - 1; NoDoubled(docs[..n]) && (n > 0 ==> docs[n - 1] != "" || docs[n] != "")
  {
    var n := |docs| - 1;
    assert n > 0 ==> docs[n - 1] != "" || docs[n - 1 + 1] != "";
  }

  lemma {:induction false} SplitAllTrimmed(docs: seq<string>)
    ensures AllTrimmed(SplitAll(docs)) <==> forall i :: 0 <= i < |docs| ==> AllTrimmed(SplitLines(docs[i]))
  {
    if docs != [] {
      var n := |docs| - 1;
      SplitAllTrimmed(docs[..n]);
      AllTrimmedAppends(SplitAll(docs[..n]), SplitLines(docs[n]));
      hide AllTrimmed, SplitLines;
      assert forall i :: 0 <= i < n ==> docs[..n][i] == docs[i];
    }
  }

  lemma AllTrimmedAppends(a: seq<string>, b: seq<string>)
    ensures AllTrimmed(a + b) <==> AllTrimmed(a) && AllTrimmed(b)
  {
    if AllTrimmed(a + b) {
      forall i | 0 <= i < |a| ensures IsTrimmed(a[i]) { assert (a + b)[i] == a[i]; }
      forall i | 0 <= i < |b| ensures IsTrimmed(b[i]) { assert (a + b)[|a| + i] == b[i]; }
    }
  }

  lemma TidyMembers(lines: seq<string>)
    ensures (forall x :: x in Layout(Paragraphs(lines)) ==> Tidy(x)) <==> (forall x :: x in lines ==> Tidy(x))
  {
    SplitAtNewline("", "");
    assert Tidy("");
    forall x | x != "" ensures x in Layout(Paragraphs(lines)) <==> x in lines {
      LayoutMembers(lines, x);
    }
  }

  lemma CommentIsTrimmed(attrs: seq<Attribute>)
    ensures AllTrimmed(Layout(Paragraphs(TrimmedDocs(attrs))))
  {
    var lines := TrimmedDocs(attrs);
    var docs := Layout(Paragraphs(lines));
    forall i | 0 <= i < |docs| ensures IsTrimmed(docs[i]) {
      if docs[i] != "" {
        LayoutMembers(lines, docs[i]);
      }
    }
  }

  /**
   Writing the comment as one doc attribute for each line and reading it again gives the comment
   back exactly when every doc string is tidy inside.
   */
  lemma IdempotentExactly(attrs: seq<Attribute>)
    ensures var text := Extracted(TrimmedDocs(attrs));
      ReadAgain(text) == text <==> forall doc :: doc in TrimmedDocs(attrs) ==> Tidy(doc)
  {
    var lines := TrimmedDocs(attrs);
    var docs := Layout(Paragraphs(lines));
    var text := Join(docs, "\n");
    CommentIsTrimmed(attrs);
    ExtractedIsTheNormalForm(lines, docs);
    TidyMembers(lines);
    FixedExactly(text);
    hide ReadAgain, AllTrimmed, NoDoubled, SplitLines, Layout, Paragraphs, TrimmedDocs;
    if docs == [] {
      assert text == "";
    } else {
      SplitOfJoin(docs);
      SplitAllEnds(docs);
      SplitAllNoDoubled(docs);
      SplitAllTrimmed(docs);
      assert text != "";
      assert forall i :: 0 <= i < |docs| ==> docs[i] in docs;
    }
  }

  /** Doc strings of one line each: what the source's line comments give. */
  lemma SingleLinesAreIdempotent(attrs: seq<Attribute>)
    requires forall i :: 0 <= i < |attrs| && attrs[i].Doc? ==> OneLine(attrs[i].value)
    ensures var text := Extracted(TrimmedDocs(attrs)); ReadAgain(text) == text
  {
    SingleLinesAreTidy(attrs);
    IdempotentExactly(attrs);
  }

  lemma {:induction false} SingleLinesAreTidy(attrs: seq<Attribute>)
    requires forall i :: 0 <= i < |attrs| && attrs[i].Doc? ==> OneLine(attrs[i].value)
    ensures forall doc :: doc in TrimmedDocs(attrs) ==> Tidy(doc)
  {
    if attrs != [] {
      SingleLinesAreTidy(attrs[..|attrs| - 1]);
      match attrs[|attrs| - 1]
      case Doc(value) =>
        TrimKeepsOneLine(value);
        SplitAtNewline(Trim(value), "");
        hide Trim, SplitLines;
      case Other =>
    }
  }

  /** Two lines with two empty ones between them. */
  const GAP: string := "a" + [NEWLINE] + ([] + [NEWLINE] + ([] + [NEWLINE] + "b"))

  lemma FourLines()
    ensures SplitLines(GAP) == ["a", "", "", "b"]
  {
    SplitAtNewline("a", [] + [NEWLINE] + ([] + [NEWLINE] + "b"));
    SplitAtNewline([], [] + [NEWLINE] + "b");
    SplitAtNewline([], "b");
    SplitAtNewline("b", []);
    hide SplitLines;
  }

  /** One doc string with two empty lines inside keeps them, and loses one when it is read again. */
  lemma MultilineDocChanges() returns (attrs: seq<Attribute>)
    ensures attrs == [Doc(GAP)]
    ensures var text := Extracted(TrimmedDocs(attrs)); ReadAgain(text) != text
  {
    var doc := GAP;
    attrs := [Doc(doc)];
    FourLines();
    assert !NoDoubled(["a", "", "", "b"]) by {
      var lines := ["a", "", "", "b"];
      assert lines[1] == "" && lines[1 + 1] == "";
    }
    TrimmedIsFixed(doc);
    assert attrs[..0] == [] && TrimmedDocs(attrs) == [doc];
    assert doc in TrimmedDocs(attrs) && !Tidy(doc);
    hide SplitLines, TrimmedDocs, Tidy, Extracted, ReadAgain;
    IdempotentExactly(attrs);
  }
}
