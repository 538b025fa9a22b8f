/**
 Greedy word wrap: a loop over the words, the lines it makes, and why they are the fewest.

 Text is a sequence of Unicode characters, and sizes are the UTF-8 sizes that Rust measures.
 */
module WordWrap {
  import opened Bytes
  import opened Whitespace

  predicate IsWord(text: string) {
    text != [] && forall i :: 0 <= i < |text| ==> !IsWhite(text[i])
  }

  /** The bytes of a text in UTF-8. */
  function Size(text: string): nat {
    if text == [] then 0
    else
      var c := text[|text| - 1] as int;
      Size(text[..|text| - 1]) + if c < 0x80 then 1 else if c < 0x800 then 2 else if c < 0x1_0000 then 3 else 4
  }

  /** The size counts the bytes of every character. */
  lemma SizeCountsBytes(text: string, c: char)
    ensures Size([]) == 0 && Size(text + [c]) == Size(text) + |Utf8(c as int)|
  {
    assert (text + [c])[..|text|] == text;
  }

  lemma {:induction false} SizeAppends(a: string, b: string)
    ensures Size(a + b) == Size(a) + Size(b)
  {
    if b == [] {
      assert a + b == a;
    } else {
      assert (a + b)[..|a + b| - 1] == a + b[..|b| - 1];
      SizeAppends(a, b[..|b| - 1]);
    }
  }

  // ----- words -----

  function WordLength(text: string): (n: nat)
    ensures n <= |text|
    ensures forall i :: 0 <= i < n ==> !IsWhite(text[i])
    ensures n == |text| || IsWhite(text[n])
  {
    if text == [] || IsWhite(text[0]) then 0 else 1 + WordLength(text[1..])
  }

  /** The maximal runs of characters that are not white space. */
  function Words(text: string): (words: seq<string>)
    ensures forall i :: 0 <= i < |words| ==> IsWord(words[i])
    decreases |text|
  {
    if text == [] then []
    else if IsWhite(text[0]) then Words(text[1..])
    else [text[..WordLength(text)]] + Words(text[WordLength(text)..])
  }

  /** White space between two texts separates their words. */
  lemma {:induction false} WordsSplit(a: string, c: char, b: string)
    requires IsWhite(c)
    ensures Words(a + [c] + b) == Words(a) + Words(b)
    decreases |a|
  {
    var text := a + [c] + b;
    if a == [] {
      assert text[1..] == b;
    } else if IsWhite(a[0]) {
      assert text[1..] == a[1..] + [c] + b;
      WordsSplit(a[1..], c, b);
    } else {
      var n := WordLength(a);
      WordLengthIs(text, n);
      assert text[..n] == a[..n] && text[n..] == a[n..] + [c] + b;
      WordsSplit(a[n..], c, b);
    }
  }

  lemma {:induction false} WordLengthIs(text: string, n: nat)
    requires n <= |text| && forall i :: 0 <= i < n ==> !IsWhite(text[i])
    requires n == |text| || IsWhite(text[n])
    ensures WordLength(text) == n
  {
    if n > 0 {
      WordLengthIs(text[1..], n - 1);
    }
  }

  lemma WordsOfWord(word: string)
    requires IsWord(word)
    ensures Words(word) == [word]
  {
    WordLengthIs(word, |word|);
    assert word[..|word|] == word && word[|word|..] == [];
  }

  lemma {:induction false} WordsAfterBlank(blank: string, text: string)
    requires IsBlank(blank)
    ensures Words(blank + text) == Words(text)
  {
    if blank == [] {
      assert blank + text == text;
    } else {
      assert (blank + text)[1..] == blank[1..] + text;
      WordsAfterBlank(blank[1..], text);
    }
  }

  // ----- lines -----

  /** The words of some lines in order. */
  function Flatten(lines: seq<seq<string>>): seq<string> {
    if lines == [] then [] else lines[0] + Flatten(lines[1..])
  }

  function Lead(first: bool, indent: string): string {
    if first then [] else indent
  }

  /** A line as it is written. */
  function LineText(line: seq<string>, lead: string): string {
    lead + Join(line, " ")
  }

  function Texts(lines: seq<seq<string>>, first: bool, indent: string): seq<string> {
    if lines == [] then []
    else [LineText(lines[0], Lead(first, indent))] + Texts(lines[1..], false, indent)
  }

  predicate Fits(line: seq<string>, lead: string, width: nat) {
    line != [] && (|line| >= 2 ==> Size(LineText(line, lead)) <= width)
  }

  /** Every line with two words or more is within the width; only the first has no indent. */
  predicate AllFit(lines: seq<seq<string>>, first: bool, indent: string, width: nat) {
    forall i :: 0 <= i < |lines| ==> Fits(lines[i], Lead(first && i == 0, indent), width)
  }

  /** A way to break `words` into lines that fit. */
  predicate Breaks(lines: seq<seq<string>>, words: seq<string>, first: bool, indent: string, width: nat) {
    Flatten(lines) == words && AllFit(lines, first, indent, width)
  }

  /** How many more words go on a line that has this size. */
  function Taken(words: seq<string>, size: nat, width: nat): (n: nat)
    ensures n <= |words|
  {
    if words == [] || size + Size(words[0]) >= width then 0
    else 1 + Taken(words[1..], size + 1 + Size(words[0]), width)
  }

  /** How many words the first greedy line takes. */
  function LineLength(words: seq<string>, first: bool, indent: string, width: nat): (n: nat)
    requires words != []
    ensures 1 <= n <= |words|
  {
    1 + Taken(words[1..], Size(Lead(first, indent)) + Size(words[0]), width)
  }

  /** The lines that the loop makes. */
  function Greedy(words: seq<string>, first: bool, indent: string, width: nat): seq<seq<string>>
    decreases |words|
  {
    if words == [] then []
    else
      var n := LineLength(words, first, indent, width);
      [words[..n]] + Greedy(words[n..], false, indent, width)
  }

  /** The size of a line that grows by one word. */
  lemma LineGrows(line: seq<string>, word: string, lead: string)
    requires line != []
    ensures LineText(line + [word], lead) == LineText(line, lead) + " " + word
    ensures Size(LineText(line + [word], lead)) == Size(LineText(line, lead)) + 1 + Size(word)
  {
    JoinAppends(line, word, " ");
    SizeAppends(LineText(line, lead), " ");
    SizeAppends(LineText(line, lead) + " ", word);
    assert " "[..0] == "" && Size(" ") == 1;
    assert lead + (Join(line, " ") + " " + word) == (lead + Join(line, " ")) + " " + word;
  }

  lemma TakeMore(line: seq<string>, words: seq<string>, n: nat)
    requires n < |words|
    ensures line + words[..1 + n] == line + [words[0]] + words[1..][..n]
    ensures words[1 + n..] == words[1..][n..]
  {
  }

  /** Taking stops exactly when the next word does not fit. */
  lemma {:induction false} TakenIsMaximal(line: seq<string>, words: seq<string>, lead: string, width: nat)
    requires line != []
    ensures var n := Taken(words, Size(LineText(line, lead)), width);
      && (n > 0 ==> Size(LineText(line + words[..n], lead)) <= width)
      && (n < |words| ==> Size(LineText(line + words[..n + 1], lead)) > width)
    decreases |words|
  {
    hide LineText, Size;
    assert line + words[..0] == line;
    if words != [] {
      LineGrows(line, words[0], lead);
      var grown := line + [words[0]];
      TakeMore(line, words, 0);
      assert words[1..][..0] == [] && grown + [] == grown;
      if Size(LineText(line, lead)) + Size(words[0]) < width {
        var n := Taken(words[1..], Size(LineText(grown, lead)), width);
        TakenIsMaximal(grown, words[1..], lead, width);
        TakeMore(line, words, n);
        if n < |words[1..]| {
          TakeMore(line, words, n + 1);
        }
      }
    }
  }

  lemma {:induction false} LongerIsLarger(line: seq<string>, more: seq<string>, lead: string)
    requires line != []
    ensures Size(LineText(line, lead)) <= Size(LineText(line + more, lead))
  {
    if more == [] {
      assert line + more == line;
    } else {
      var n := |more| - 1;
      LongerIsLarger(line, more[..n], lead);
      assert line + more == (line + more[..n]) + [more[n]];
      LineGrows(line + more[..n], more[n], lead);
    }
  }

  /** Words dropped from the front of a line make it smaller. */
  lemma {:induction false} DroppingShrinks(line: seq<string>, i: nat, lead: string)
    requires i < |line|
    ensures Size(LineText(line[i..], lead)) <= Size(LineText(line, lead))
  {
    if i > 0 {
      DroppingShrinks(line[1..], i - 1, lead);
      assert line[1..][i - 1..] == line[i..];
      var rest := Join(line[1..], " ");
      assert Join(line, " ") == line[0] + " " + rest;
      SizeAppends(lead, rest);
      SizeAppends(line[0] + " ", rest);
      SizeAppends(lead, line[0] + " " + rest);
    }
  }

  /** The first greedy line is at least as long as any prefix that fits. */
  lemma GreedyTakesMost(words: seq<string>, m: nat, first: bool, indent: string, width: nat)
    requires 0 < m <= |words| && Fits(words[..m], Lead(first, indent), width)
    ensures m <= LineLength(words, first, indent, width)
  {
    var line, lead := [words[0]], Lead(first, indent);
    FirstWord(words[0], lead);
    TakenIsMaximal(line, words[1..], lead, width);
    hide Size, LineText, Taken;
    var n := LineLength(words, first, indent, width);
    if n < m {
      CutOfWords(words, n, m);
      LongerIsLarger([words[0]] + words[1..][..n], words[n + 1..m], lead);
    }
  }

  lemma CutOfWords(words: seq<string>, n: nat, m: nat)
    requires 1 <= n < m <= |words|
    ensures words[..m] == [words[0]] + words[1..][..n] + words[n + 1..m]
  {
  }

  lemma FirstWord(word: string, lead: string)
    ensures Size(LineText([word], lead)) == Size(lead) + Size(word)
  {
    SizeAppends(lead, word);
  }

  lemma FlattenCons(line: seq<string>, lines: seq<seq<string>>)
    ensures Flatten([line] + lines) == line + Flatten(lines)
  {
    assert ([line] + lines)[1..] == lines;
  }

  lemma FirstOf(words: seq<string>, n: nat)
    requires 1 <= n <= |words|
    ensures words[..n] == [words[0]] + words[1..][..n - 1] && words[n..] == words[1..][n - 1..]
  {
  }

  lemma GreedyUnfolds(words: seq<string>, first: bool, indent: string, width: nat)
    requires words != []
    ensures var n := LineLength(words, first, indent, width);
      Greedy(words, first, indent, width) == [words[..n]] + Greedy(words[n..], false, indent, width)
  {
    hide Size, Taken;
  }

  lemma FirstLineFits(words: seq<string>, first: bool, indent: string, width: nat)
    requires words != []
    ensures Fits(words[..LineLength(words, first, indent, width)], Lead(first, indent), width)
  {
    var lead := Lead(first, indent);
    FirstWord(words[0], lead);
    TakenIsMaximal([words[0]], words[1..], lead, width);
    hide Size, LineText, Taken;
    FirstOf(words, LineLength(words, first, indent, width));
  }

  lemma AllFitCons(line: seq<string>, lines: seq<seq<string>>, first: bool, indent: string, width: nat)
    ensures AllFit([line] + lines, first, indent, width)
       <==> Fits(line, Lead(first, indent), width) && AllFit(lines, false, indent, width)
  {
    hide Fits;
    assert ([line] + lines)[0] == line;
    if AllFit([line] + lines, first, indent, width) {
      forall i | 0 <= i < |lines| ensures Fits(lines[i], Lead(false, indent), width) {
        assert ([line] + lines)[i + 1] == lines[i];
      }
    }
  }

  lemma BreaksCons(line: seq<string>, lines: seq<seq<string>>, rest: seq<string>, first: bool, indent: string, width: nat)
    requires Fits(line, Lead(first, indent), width) && Breaks(lines, rest, false, indent, width)
    ensures Breaks([line] + lines, line + rest, first, indent, width)
  {
    hide Fits, AllFit, Flatten;
    FlattenCons(line, lines);
    AllFitCons(line, lines, first, indent, width);
  }

  lemma NoWords(first: bool, indent: string, width: nat)
    ensures Breaks(Greedy([], first, indent, width), [], first, indent, width)
  {
  }

  /** The greedy lines are a way to break the words. */
  lemma {:induction false} GreedyBreaks(words: seq<string>, first: bool, indent: string, width: nat)
    ensures Breaks(Greedy(words, first, indent, width), words, first, indent, width)
    decreases |words|
  {
    hide *;
    if words == [] {
      NoWords(first, indent, width);
    } else {
      var n := LineLength(words, first, indent, width);
      GreedyUnfolds(words, first, indent, width);
      FirstLineFits(words, first, indent, width);
      GreedyBreaks(words[n..], false, indent, width);
      BreaksCons(words[..n], Greedy(words[n..], false, indent, width), words[n..], first, indent, width);
      assert words == words[..n] + words[n..];
    }
  }

  /** A suffix of a line and of the lines after it. */
  lemma Suffixes(line: seq<string>, rest: seq<string>, words: seq<string>, i: nat, n: nat)
    requires words == line + rest && i + n <= |words|
    ensures |line| <= i + n ==> words[i..][n..] == rest[i + n - |line|..]
    ensures i <= |line| ==> words[i..][..|line| - i] == line[i..]
  {
  }

  lemma FitsDropped(line: seq<string>, i: nat, lead: string, width: nat)
    requires i < |line| && Fits(line, lead, width)
    ensures Fits(line[i..], lead, width)
  {
    DroppingShrinks(line, i, lead);
    hide Size, LineText;
  }

  /** Greedy stays ahead: it breaks any suffix of the words into no more lines than any breaking of them all. */
  lemma {:induction false} GreedyStaysAhead(lines: seq<seq<string>>, words: seq<string>, i: nat, first: bool, indent: string, width: nat)
    requires Breaks(lines, words, first, indent, width)
    requires i <= |words| && (first ==> i == 0)
    ensures |Greedy(words[i..], first, indent, width)| <= |lines|
    decreases |lines|
  {
    hide Fits, LineLength;
    if i < |words| {
      var line, rest := lines[0], Flatten(lines[1..]);
      assert lines == [line] + lines[1..];
      AllFitCons(line, lines[1..], first, indent, width);
      FlattenCons(line, lines[1..]);
      hide AllFit, Greedy, Flatten;
      if i < |line| {
        var n := LineLength(words[i..], first, indent, width);
        GreedyUnfolds(words[i..], first, indent, width);
        FitsDropped(line, i, Lead(first, indent), width);
        Suffixes(line, rest, words, i, 0);
        GreedyTakesMost(words[i..], |line| - i, first, indent, width);
        Suffixes(line, rest, words, i, n);
        GreedyStaysAhead(lines[1..], rest, i + n - |line|, false, indent, width);
      } else {
        FitsHasWords(line, Lead(first, indent), width);
        Suffixes(line, rest, words, i, 0);
        GreedyStaysAhead(lines[1..], rest, i - |line|, false, indent, width);
      }
    }
  }

  lemma FitsHasWords(line: seq<string>, lead: string, width: nat)
    requires Fits(line, lead, width)
    ensures line != []
  {
  }

  /** No way to break the words has fewer lines than the greedy one, whatever the width and the indent. */
  lemma GreedyIsOptimal(lines: seq<seq<string>>, words: seq<string>, indent: string, width: nat)
    requires Breaks(lines, words, true, indent, width)
    ensures |Greedy(words, true, indent, width)| <= |lines|
  {
    assert words[0..] == words;
    GreedyStaysAhead(lines, words, 0, true, indent, width);
  }

  // ----- the loop -----

  /** What the loop still has to write when a line is open and these words remain. */
  function Pending(open: string, words: seq<string>, indent: string, width: nat): seq<string>
    decreases |words|
  {
    if words == [] then [open]
    else if Size(open) + Size(words[0]) < width then Pending(open + " " + words[0], words[1..], indent, width)
    else [open] + Pending(indent + words[0], words[1..], indent, width)
  }

  lemma {:induction false} PendingIsGreedy(line: seq<string>, words: seq<string>, lead: string, indent: string, width: nat)
    requires line != []
    ensures var n := Taken(words, Size(LineText(line, lead)), width);
      Pending(LineText(line, lead), words, indent, width)
      == [LineText(line + words[..n], lead)] + Texts(Greedy(words[n..], false, indent, width), false, indent)
    decreases |words|
  {
    hide Size, LineText, Greedy, Texts;
    assert line + words[..0] == line && words[0..] == words;
    if words == [] {
      NoLines(indent, width);
    } else {
      LineGrows(line, words[0], lead);
      if Size(LineText(line, lead)) + Size(words[0]) < width {
        var n := Taken(words[1..], Size(LineText(line, lead)) + 1 + Size(words[0]), width);
        PendingIsGreedy(line + [words[0]], words[1..], lead, indent, width);
        TakeMore(line, words, n);
      } else {
        FirstWord(words[0], indent);
        OneWord(words[0], indent);
        PendingIsGreedy([words[0]], words[1..], indent, indent, width);
        NextLine(words, false, indent, width);
      }
    }
  }

  lemma NoLines(indent: string, width: nat)
    ensures Texts(Greedy([], false, indent, width), false, indent) == []
  {
  }

  lemma OneWord(word: string, lead: string)
    ensures LineText([word], lead) == lead + word
  {
  }

  lemma NextLine(words: seq<string>, first: bool, indent: string, width: nat)
    requires words != []
    ensures var n := Taken(words[1..], Size(Lead(first, indent)) + Size(words[0]), width);
      Texts(Greedy(words, first, indent, width), first, indent)
      == [LineText([words[0]] + words[1..][..n], Lead(first, indent))] + Texts(Greedy(words[1..][n..], false, indent, width), false, indent)
  {
    var n := LineLength(words, first, indent, width);
    GreedyUnfolds(words, first, indent, width);
    hide Size, LineText, Greedy, Texts, Taken;
    FirstOf(words, n);
  }

  lemma WholeText(words: seq<string>, indent: string, width: nat)
    requires words != []
    ensures Pending(words[0], words[1..], indent, width) == Texts(Greedy(words, true, indent, width), true, indent)
  {
    hide Size, LineText, Greedy, Texts, Taken, Pending;
    OneWord(words[0], []);
    assert [] + words[0] == words[0];
    FirstWord(words[0], []);
    PendingIsGreedy([words[0]], words[1..], [], indent, width);
    NextLine(words, true, indent, width);
  }

  function Wrapped(text: string, width: nat, indent: string): string {
    Join(Texts(Greedy(Words(text), true, indent, width), true, indent), "\n")
  }

  // ----- the lines of the output -----

  /** The lines of a text, cut at its newlines. */
  function Cut(text: string): seq<string> { Lines(text) + [Tail(text)] }

  lemma {:induction false} CutOfJoin(texts: seq<string>)
    requires texts != [] && forall i :: 0 <= i < |texts| ==> NoNewline(texts[i])
    ensures Cut(Join(texts, "\n")) == texts
  {
    hide Lines, Tail, FirstNewline;
    var first, whole := texts[0], Join(texts, "\n");
    if |texts| == 1 {
      NoFirstNewline(first);
      SplitNone(first);
    } else {
      var rest := Join(texts[1..], "\n");
      assert whole[..|first|] == first && whole[|first|] == NEWLINE && whole[|first| + 1..] == rest;
      FirstNewlineAt(whole, |first|);
      SplitFirst(whole);
      CutOfJoin(texts[1..]);
      assert texts == [first] + texts[1..];
    }
  }

  lemma {:induction false} LineHasNoNewline(line: seq<string>)
    requires forall i :: 0 <= i < |line| ==> IsWord(line[i])
    ensures NoNewline(Join(line, " "))
  {
    if line != [] {
      LineHasNoNewline(line[1..]);
      assert NoNewline(line[0]);
      hide IsWord;
    }
  }

  lemma {:induction false} TextsHaveNoNewline(lines: seq<seq<string>>, first: bool, indent: string)
    requires forall i, j :: 0 <= i < |lines| && 0 <= j < |lines[i]| ==> IsWord(lines[i][j])
    requires NoNewline(indent)
    ensures |Texts(lines, first, indent)| == |lines|
    ensures forall i :: 0 <= i < |lines| ==> NoNewline(Texts(lines, first, indent)[i])
  {
    if lines != [] {
      forall j | 0 <= j < |lines[0]| ensures IsWord(lines[0][j]) {
      }
      LineHasNoNewline(lines[0]);
      forall i, j | 0 <= i < |lines[1..]| && 0 <= j < |lines[1..][i]| ensures IsWord(lines[1..][i][j]) {
        assert lines[1..][i] == lines[i + 1];
      }
      TextsHaveNoNewline(lines[1..], false, indent);
      hide Join, IsWord;
    }
  }

  /** The lines are a way to break the words, and no other way has fewer. */
  ghost predicate Fewest(lines: seq<seq<string>>, words: seq<string>, indent: string, width: nat) {
    && Breaks(lines, words, true, indent, width)
    && forall other :: Breaks(other, words, true, indent, width) ==> |lines| <= |other|
  }

  lemma GreedyIsFewest(words: seq<string>, indent: string, width: nat)
    ensures Fewest(Greedy(words, true, indent, width), words, indent, width)
  {
    GreedyBreaks(words, true, indent, width);
    hide Breaks, Greedy;
    forall other | Breaks(other, words, true, indent, width) ensures |Greedy(words, true, indent, width)| <= |other| {
      GreedyIsOptimal(other, words, indent, width);
    }
  }

  /** Cut at its newlines, the output is a breaking of the words into the fewest lines. */
  lemma OutputIsFewest(text: string, width: nat, indent: string)
    requires NoNewline(indent) && Words(text) != []
    ensures exists lines ::
      Fewest(lines, Words(text), indent, width) && Cut(Wrapped(text, width, indent)) == Texts(lines, true, indent)
  {
    var words := Words(text);
    var lines := Greedy(words, true, indent, width);
    GreedyIsFewest(words, indent, width);
    LinesHoldWords(lines);
    hide Words, IsWord, Greedy, Cut, AllFit;
    TextsHaveNoNewline(lines, true, indent);
    assert lines != [];
    CutOfJoin(Texts(lines, true, indent));
  }

  /**
   The loop writes the fewest lines that hold the words in order, with every line of two words or
   more within the width.
   */
  method WrapText(text: string, width: nat, indent: string) returns (wrapped: string)
    ensures Words(text) == [] ==> wrapped == []
    ensures NoNewline(indent) && Words(text) != [] ==>
      exists lines :: Fewest(lines, Words(text), indent, width) && Cut(wrapped) == Texts(lines, true, indent)
    ensures wrapped == Wrapped(text, width, indent)
  {
    var words := Words(text);
    var lines: seq<string> := [];
    var current: string := [];
    var i := 0;
    while i < |words|
      invariant i <= |words|
      invariant i == 0 ==> lines == [] && current == []
      invariant i > 0 ==> current != [] && lines + Pending(current, words[i..], indent, width) == Pending(words[0], words[1..], indent, width)
    {
      var word := words[i];
      assert IsWord(word) && words[i..][1..] == words[i + 1..];
      if current == [] {
        current := word;
      } else if Size(current) + Size(word) < width {
        current := current + " " + word;
      } else {
        lines := lines + [current];
        current := indent + word;
      }
      i := i + 1;
    }
    if current != [] {
      lines := lines + [current];
      assert words[i..] == [];
      WholeText(words, indent, width);
    }
    wrapped := Join(lines, "\n");
    hide Pending, Fewest, Cut;
    if NoNewline(indent) && words != [] {
      OutputIsFewest(text, width, indent);
    }
  }

  // ----- what the output reads as -----

  lemma {:induction false} WordsOfLine(line: seq<string>, lead: string)
    requires line != [] && (forall i :: 0 <= i < |line| ==> IsWord(line[i]))
    requires IsBlank(lead)
    ensures Words(LineText(line, lead)) == line
  {
    hide Words, IsWord, IsBlank;
    WordsAfterBlank(lead, Join(line, " "));
    WordsOfWord(line[0]);
    if |line| == 1 {
      assert line == [line[0]];
    } else {
      hide Join, LineText;
      WordsSplit(line[0], ' ', Join(line[1..], " "));
      NoLead(line[1..]);
      EmptyIsBlank();
      WordsOfLine(line[1..], []);
      assert line == [line[0]] + line[1..];
    }
  }

  lemma NoLead(line: seq<string>)
    ensures LineText(line, []) == Join(line, " ")
  {
    assert [] + Join(line, " ") == Join(line, " ");
  }

  lemma EmptyIsBlank()
    ensures IsBlank([])
  {
  }

  lemma {:induction false} WordsOfTexts(lines: seq<seq<string>>, first: bool, indent: string)
    requires IsBlank(indent)
    requires forall i :: 0 <= i < |lines| ==> lines[i] != [] && forall j :: 0 <= j < |lines[i]| ==> IsWord(lines[i][j])
    ensures Words(Join(Texts(lines, first, indent), "\n")) == Flatten(lines)
  {
    if lines != [] {
      var text, rest := LineText(lines[0], Lead(first, indent)), Texts(lines[1..], false, indent);
      WordsOfLine(lines[0], Lead(first, indent));
      WordsOfTexts(lines[1..], false, indent);
      assert ([text] + rest)[1..] == rest;
      if |lines| > 1 {
        assert Join([text] + rest, "\n") == text + ['\n'] + Join(rest, "\n");
        WordsSplit(text, '\n', Join(rest, "\n"));
      } else {
        assert lines[1..] == [] && Flatten(lines) == lines[0];
      }
    }
  }

  lemma {:induction false} LinesHoldWords(lines: seq<seq<string>>)
    requires forall i :: 0 <= i < |Flatten(lines)| ==> IsWord(Flatten(lines)[i])
    ensures forall i, j :: 0 <= i < |lines| && 0 <= j < |lines[i]| ==> IsWord(lines[i][j])
  {
    if lines != [] {
      var rest := Flatten(lines[1..]);
      assert Flatten(lines) == lines[0] + rest;
      forall j | 0 <= j < |lines[0]| ensures IsWord(lines[0][j]) { assert Flatten(lines)[j] == lines[0][j]; }
      forall j | 0 <= j < |rest| ensures IsWord(rest[j]) { assert Flatten(lines)[|lines[0]| + j] == rest[j]; }
      LinesHoldWords(lines[1..]);
      forall i, j | 0 <= i < |lines| && 0 <= j < |lines[i]| ensures IsWord(lines[i][j]) {
        if i > 0 { assert lines[i] == lines[1..][i - 1]; }
      }
    }
  }

  /** How many characters are not white space. */
  function Letters(text: string): nat {
    if text == [] then 0 else (if IsWhite(text[0]) then 0 else 1) + Letters(text[1..])
  }

  lemma {:induction false} LettersAppend(a: string, b: string)
    ensures Letters(a + b) == Letters(a) + Letters(b)
  {
    if a == [] {
      assert a + b == b;
    } else {
      assert (a + b)[1..] == a[1..] + b;
      LettersAppend(a[1..], b);
    }
  }

  lemma {:induction false} LettersOfWord(word: string)
    requires forall i :: 0 <= i < |word| ==> !IsWhite(word[i])
    ensures Letters(word) == |word|
  {
    if word != [] {
      LettersOfWord(word[1..]);
    }
  }

  lemma {:induction false} LettersOfBlank(text: string)
    ensures Letters(text) == 0 <==> IsBlank(text)
  {
    if text != [] {
      LettersOfBlank(text[1..]);
      assert IsBlank(text) <==> IsWhite(text[0]) && IsBlank(text[1..]) by {
        assert forall i :: 1 <= i < |text| ==> text[i] == text[1..][i - 1];
      }
    }
  }

  /** The words hold every letter of the text. */
  lemma {:induction false} LettersAreInWords(text: string)
    ensures Letters(text) == |Concat(Words(text))|
    decreases |text|
  {
    if text != [] {
      if IsWhite(text[0]) {
        LettersAreInWords(text[1..]);
      } else {
        var n := WordLength(text);
        LettersAreInWords(text[n..]);
        LettersAppend(text[..n], text[n..]);
        LettersOfWord(text[..n]);
        assert text == text[..n] + text[n..];
        ConcatAppends([text[..n]], Words(text[n..]));
        assert Concat([text[..n]]) == text[..n];
      }
    }
  }

  lemma {:induction false} LettersOfLine(line: seq<string>)
    requires forall i :: 0 <= i < |line| ==> IsWord(line[i])
    ensures Letters(Join(line, " ")) == |Concat(line)|
  {
    if line != [] {
      LettersOfWord(line[0]);
      LettersOfLine(line[1..]);
      if |line| > 1 {
        LettersAppend(line[0] + " ", Join(line[1..], " "));
        LettersAppend(line[0], " ");
      }
    }
  }

  /** Every line but the first adds the letters of the indent. */
  lemma {:induction false} LettersOfTexts(lines: seq<seq<string>>, first: bool, indent: string)
    requires forall i, j :: 0 <= i < |lines| && 0 <= j < |lines[i]| ==> IsWord(lines[i][j])
    ensures Letters(Join(Texts(lines, first, indent), "\n"))
         >= |Concat(Flatten(lines))| + if |lines| > (if first then 1 else 0) then Letters(indent) else 0
  {
    if lines != [] {
      var text, rest := LineText(lines[0], Lead(first, indent)), Texts(lines[1..], false, indent);
      LettersAppend(Lead(first, indent), Join(lines[0], " "));
      LettersOfLine(lines[0]);
      ConcatAppends(lines[0], Flatten(lines[1..]));
      LettersOfTexts(lines[1..], false, indent);
      assert ([text] + rest)[1..] == rest;
      if |lines| > 1 {
        assert Join([text] + rest, "\n") == text + "\n" + Join(rest, "\n");
        LettersAppend(text + "\n", Join(rest, "\n"));
        LettersAppend(text, "\n");
      } else {
        assert lines[1..] == [];
      }
    }
  }

  /**
   Reading the wrapped text gives the words back exactly when the indent is blank or there is one
   line at most, and then wrapping again changes nothing.
   */
  lemma WrappingKeepsWords(text: string, width: nat, indent: string)
    ensures Words(Wrapped(text, width, indent)) == Words(text)
       <==> IsBlank(indent) || |Greedy(Words(text), true, indent, width)| <= 1
    ensures Words(Wrapped(text, width, indent)) == Words(text) ==>
              Wrapped(Wrapped(text, width, indent), width, indent) == Wrapped(text, width, indent)
  {
    var words := Words(text);
    var lines := Greedy(words, true, indent, width);
    GreedyBreaks(words, true, indent, width);
    LinesHoldWords(lines);
    forall i | 0 <= i < |lines| ensures lines[i] != [] {
      assert Fits(lines[i], Lead(true && i == 0, indent), width);
    }
    hide Words, Greedy, Fits, Letters, IsWord;
    if IsBlank(indent) {
      WordsOfTexts(lines, true, indent);
    } else if |lines| <= 1 {
      WordsOfTexts(lines, true, []);
      assert Texts(lines, true, []) == Texts(lines, true, indent);
    } else {
      LettersOfTexts(lines, true, indent);
      LettersOfBlank(indent);
      LettersAreInWords(Wrapped(text, width, indent));
    }
  }
}
