/** Greedy word wrap (src/utils/textWrapper.ts). The canvas' `measureText(...).width`
    is the abstract `measure`; words are the pieces of `text.split(' ')`. */
module TextWrapper {
  import opened Strings

  datatype WrapOptions = WrapOptions(maxWidth: real, lineHeight: real)

  datatype WrappedText = WrappedText(lines: seq<string>, totalHeight: real)

  /** A line that either fits the width or is a single (space-free) word. */
  predicate FitsOrSingleWord(measure: string -> real, maxWidth: real, line: string) {
    measure(line) <= maxWidth || ' ' !in line
  }

  /** The shape every emitted line has: non-empty, and fitting unless a lone word. */
  predicate GoodLines(measure: string -> real, maxWidth: real, lines: seq<string>) {
    forall k :: 0 <= k < |lines| ==> lines[k] != "" && FitsOrSingleWord(measure, maxWidth, lines[k])
  }

  predicate SpaceFree(words: seq<string>) {
    forall i :: 0 <= i < |words| ==> ' ' !in words[i]
  }

  predicate AllNonEmpty(words: seq<string>) {
    forall i :: 0 <= i < |words| ==> words[i] != ""
  }

  function Count(b: bool): nat { if b then 1 else 0 }

  /** The loop of lines 24-39 from a given state: `lines` already pushed, `current`
      the line being built, `words` still to come; the final flush included. */
  function Fill(measure: string -> real, maxWidth: real, words: seq<string>,
                lines: seq<string>, current: string): (r: seq<string>)
    requires SpaceFree(words)
    requires GoodLines(measure, maxWidth, lines)
    requires FitsOrSingleWord(measure, maxWidth, current)
    ensures GoodLines(measure, maxWidth, r)
    ensures |lines| <= |r| <= |lines| + Count(current != "") + |words|
    ensures r[..|lines|] == lines
    decreases |words|
  {
    if |words| == 0 then
      if current != "" then lines + [current] else lines
    else
      var word := words[0];
      var testLine := if current != "" then current + " " + word else word;
      if measure(testLine) > maxWidth && current != "" then
        Fill(measure, maxWidth, words[1..], lines + [current], word)
      else
        Fill(measure, maxWidth, words[1..], lines, testLine)
  }

  /** `wrapText(ctx, text, options)`. */
  function WrapText(measure: string -> real, text: string, options: WrapOptions): (r: WrappedText)
    ensures GoodLines(measure, options.maxWidth, r.lines)
    ensures |r.lines| <= |Split(text, ' ')|
    ensures r.totalHeight == |r.lines| as real * options.lineHeight
  {
    var lines := Fill(measure, options.maxWidth, Split(text, ' '), [], "");
    WrappedText(lines, |lines| as real * options.lineHeight)
  }

  /** `words` joined as " " + w for each word, the text a line gains from them. */
  function Spaced(words: seq<string>): string
    decreases |words|
  {
    if |words| == 0 then "" else " " + words[0] + Spaced(words[1..])
  }

  lemma {:induction false} JoinIsSpaced(words: seq<string>)
    requires |words| >= 1
    ensures Join(words, ' ') == words[0] + Spaced(words[1..])
    decreases |words|
  {
    if |words| > 1 {
      JoinIsSpaced(words[1..]);
      assert words[1..][1..] == words[2..];
    }
  }

  /** With non-empty words and a started line, the emitted lines read back as the
      text so far followed by the remaining words. */
  lemma {:induction false} FillJoin(measure: string -> real, maxWidth: real, words: seq<string>,
                                    lines: seq<string>, current: string)
    requires SpaceFree(words) && AllNonEmpty(words)
    requires GoodLines(measure, maxWidth, lines)
    requires FitsOrSingleWord(measure, maxWidth, current)
    requires current != ""
    ensures Join(Fill(measure, maxWidth, words, lines, current), ' ')
            == Join(lines + [current], ' ') + Spaced(words)
    decreases |words|
  {
    if |words| > 0 {
      var word := words[0];
      var testLine := current + " " + word;
      assert Spaced(words) == " " + word + Spaced(words[1..]);
      assert ' ' !in word && word != "";
      assert SpaceFree(words[1..]) && AllNonEmpty(words[1..]) by {
        forall i | 0 <= i < |words| - 1 ensures ' ' !in words[1..][i] && words[1..][i] != "" {
          assert words[1..][i] == words[i + 1];
        }
      }
      if measure(testLine) > maxWidth {
        GoodLinesSnoc(measure, maxWidth, lines, current);
        assert Fill(measure, maxWidth, words, lines, current)
               == Fill(measure, maxWidth, words[1..], lines + [current], word);
        FillJoin(measure, maxWidth, words[1..], lines + [current], word);
        JoinSnoc(lines + [current], word, ' ');
      } else {
        assert Fill(measure, maxWidth, words, lines, current)
               == Fill(measure, maxWidth, words[1..], lines, testLine);
        FillJoin(measure, maxWidth, words[1..], lines, testLine);
        JoinExtendLast(lines, current, word);
      }
    }
  }

  lemma GoodLinesSnoc(measure: string -> real, maxWidth: real, lines: seq<string>, line: string)
    requires GoodLines(measure, maxWidth, lines)
    requires line != "" && FitsOrSingleWord(measure, maxWidth, line)
    ensures GoodLines(measure, maxWidth, lines + [line])
  {
    forall k | 0 <= k < |lines| + 1
      ensures (lines + [line])[k] != "" && FitsOrSingleWord(measure, maxWidth, (lines + [line])[k])
    {
      if k < |lines| {
        assert (lines + [line])[k] == lines[k];
      }
    }
  }

  /** Extending the last line by a word extends the joined text by a space and the word. */
  lemma JoinExtendLast(lines: seq<string>, current: string, word: string)
    ensures Join(lines + [current + " " + word], ' ') == Join(lines + [current], ' ') + " " + word
  {
    if |lines| == 0 {
      assert lines + [current + " " + word] == [current + " " + word];
      assert lines + [current] == [current];
    } else {
      JoinSnoc(lines, current + " " + word, ' ');
      JoinSnoc(lines, current, ' ');
    }
  }

  /** When no word is empty (no leading, trailing or doubled space), joining the
      lines with " " reproduces the input exactly: words keep their order and none
      is lost or split. */
  lemma WrapReproducesText(measure: string -> real, text: string, options: WrapOptions)
    requires AllNonEmpty(Split(text, ' '))
    ensures Join(WrapText(measure, text, options).lines, ' ') == text
  {
    var words := Split(text, ' ');
    var w := options.maxWidth;
    assert Fill(measure, w, words, [], "") == Fill(measure, w, words[1..], [], words[0]);
    FillJoin(measure, w, words[1..], [], words[0]);
    JoinIsSpaced(words);
    JoinSplit(text, ' ');
  }

  /** The greedy-break property of a state: every pushed line was pushed because the
      next line's first word would not fit after it. */
  predicate GreedyPairs(measure: string -> real, maxWidth: real, lines: seq<string>) {
    forall k :: 0 <= k < |lines| - 1 ==>
      measure(lines[k] + " " + FirstToken(lines[k + 1], ' ')) > maxWidth
  }

  lemma {:induction false} FillGreedy(measure: string -> real, maxWidth: real, words: seq<string>,
                                      lines: seq<string>, current: string)
    requires SpaceFree(words) && AllNonEmpty(words)
    requires GoodLines(measure, maxWidth, lines)
    requires FitsOrSingleWord(measure, maxWidth, current)
    requires current == "" ==> lines == []
    requires GreedyPairs(measure, maxWidth, lines)
    requires |lines| > 0 ==> measure(lines[|lines| - 1] + " " + FirstToken(current, ' ')) > maxWidth
    ensures GreedyPairs(measure, maxWidth, Fill(measure, maxWidth, words, lines, current))
    decreases |words|
  {
    if |words| > 0 {
      var word := words[0];
      SplitNoSeparator(word, ' ');
      if current == "" {
        FillGreedy(measure, maxWidth, words[1..], lines, word);
      } else {
        var testLine := current + " " + word;
        if measure(testLine) > maxWidth {
          FillGreedy(measure, maxWidth, words[1..], lines + [current], word);
        } else {
          FirstTokenExtend(current, word, ' ');
          assert testLine == current + [' '] + word;
          FillGreedy(measure, maxWidth, words[1..], lines, testLine);
        }
      }
    }
  }

  /** Greedy break: with no empty words, each line was ended only because the first
      word of the next line would have made it wider than `maxWidth`. */
  lemma WrapIsGreedy(measure: string -> real, text: string, options: WrapOptions)
    requires AllNonEmpty(Split(text, ' '))
    ensures GreedyPairs(measure, options.maxWidth, WrapText(measure, text, options).lines)
  {
    FillGreedy(measure, options.maxWidth, Split(text, ' '), [], "");
  }

  lemma {:induction false} FillOfEmptyWords(measure: string -> real, maxWidth: real, words: seq<string>,
                                            lines: seq<string>)
    requires forall i :: 0 <= i < |words| ==> words[i] == ""
    requires GoodLines(measure, maxWidth, lines)
    ensures Fill(measure, maxWidth, words, lines, "") == lines
    decreases |words|
  {
    if |words| > 0 {
      FillOfEmptyWords(measure, maxWidth, words[1..], lines);
    }
  }

  lemma {:induction false} FillProducesLine(measure: string -> real, maxWidth: real, words: seq<string>,
                                            lines: seq<string>, current: string)
    requires SpaceFree(words)
    requires GoodLines(measure, maxWidth, lines)
    requires FitsOrSingleWord(measure, maxWidth, current)
    requires current != "" || exists i :: 0 <= i < |words| && words[i] != ""
    ensures |Fill(measure, maxWidth, words, lines, current)| > 0
    decreases |words|
  {
    if |words| > 0 {
      var word := words[0];
      var testLine := if current != "" then current + " " + word else word;
      if measure(testLine) > maxWidth && current != "" {
      } else {
        if testLine == "" {
          var i :| 0 <= i < |words| && words[i] != "";
          assert i > 0 && words[1..][i - 1] != "";
        }
        FillProducesLine(measure, maxWidth, words[1..], lines, testLine);
      }
    }
  }

  /** No lines (and height 0) exactly when the text consists of spaces only,
      the empty text included. */
  lemma WrapEmptyIffBlank(measure: string -> real, text: string, options: WrapOptions)
    ensures WrapText(measure, text, options).lines == []
            <==> forall j :: 0 <= j < |text| ==> text[j] == ' '
  {
    var words := Split(text, ' ');
    if forall j :: 0 <= j < |text| ==> text[j] == ' ' {
      SplitOfSeparators(text, ' ');
      FillOfEmptyWords(measure, options.maxWidth, words, []);
    } else {
      var j :| 0 <= j < |text| && text[j] != ' ';
      if forall i :: 0 <= i < |words| ==> words[i] == "" {
        JoinOfEmpties(words, ' ');
        JoinSplit(text, ' ');
        assert false;
      }
      FillProducesLine(measure, options.maxWidth, words, [], "");
    }
  }

  /** A measurer giving 5 units per character, as in the repository's worked example. */
  function FivePerChar(s: string): real { 5.0 * |s| as real }

  /** Three space-free words joined by single spaces split back into the three words. */
  lemma SplitThreeWords(a: string, b: string, c: string)
    requires ' ' !in a && ' ' !in b && ' ' !in c
    ensures Split(a + " " + b + " " + c, ' ') == [a, b, c]
  {
    var words := [a, b, c];
    assert words[1..][1..] == [c];
    assert Join(words[1..], ' ') == b + " " + c;
    assert Join(words, ' ') == a + " " + (b + " " + c);
    assert a + " " + (b + " " + c) == a + " " + b + " " + c;
    SplitJoin(words, ' ');
  }


  lemma FillThreeLines(words: seq<string>)
    requires words == ["AAAA", "BBBB", "CCCC"]
    ensures Fill(FivePerChar, 29.0, words, [], "") == words
  {
    var m, w := FivePerChar, 29.0;
    assert Fill(m, w, words, [], "") == Fill(m, w, words[1..], [], "AAAA");
    assert words[1..][0] == "BBBB" && words[1..][1..] == words[2..];
    assert m("AAAA" + " " + "BBBB") == 45.0;
    assert [] + ["AAAA"] == ["AAAA"];
    assert Fill(m, w, words[1..], [], "AAAA") == Fill(m, w, words[2..], ["AAAA"], "BBBB");
    assert words[2..][0] == "CCCC" && words[2..][1..] == words[3..];
    assert m("BBBB" + " " + "CCCC") == 45.0;
    assert ["AAAA"] + ["BBBB"] == ["AAAA", "BBBB"];
    assert Fill(m, w, words[2..], ["AAAA"], "BBBB") == Fill(m, w, words[3..], ["AAAA", "BBBB"], "CCCC");
  }

  /** "AAAA BBBB" measures 45 > 29, so every word ends up on its own line. */
  lemma ExampleThreeLines(text: string)
    requires text == "AAAA BBBB CCCC"
    ensures WrapText(FivePerChar, text, WrapOptions(29.0, 10.0))
            == WrappedText(["AAAA", "BBBB", "CCCC"], 30.0)
  {
    SplitThreeWords("AAAA", "BBBB", "CCCC");
    assert "AAAA" + " " + "BBBB" + " " + "CCCC" == text;
    FillThreeLines(Split(text, ' '));
  }

  lemma FillTwoLines(words: seq<string>)
    requires words == ["AAAA", "BBBB", "CCCC"]
    ensures Fill(FivePerChar, 45.0, words, [], "") == ["AAAA BBBB", "CCCC"]
  {
    var m, w := FivePerChar, 45.0;
    assert Fill(m, w, words, [], "") == Fill(m, w, words[1..], [], "AAAA");
    assert words[1..][0] == "BBBB" && words[1..][1..] == words[2..];
    assert "AAAA" + " " + "BBBB" == "AAAA BBBB";
    assert m("AAAA BBBB") == 45.0;
    assert Fill(m, w, words[1..], [], "AAAA") == Fill(m, w, words[2..], [], "AAAA BBBB");
    assert words[2..][0] == "CCCC" && words[2..][1..] == words[3..];
    assert m("AAAA BBBB" + " " + "CCCC") == 70.0;
    assert [] + ["AAAA BBBB"] == ["AAAA BBBB"];
    assert Fill(m, w, words[2..], [], "AAAA BBBB") == Fill(m, w, words[3..], ["AAAA BBBB"], "CCCC");
  }

  /** At width 45 the first two words share a line. */
  lemma ExampleTwoLines(text: string)
    requires text == "AAAA BBBB CCCC"
    ensures WrapText(FivePerChar, text, WrapOptions(45.0, 10.0)).lines == ["AAAA BBBB", "CCCC"]
  {
    SplitThreeWords("AAAA", "BBBB", "CCCC");
    assert "AAAA" + " " + "BBBB" + " " + "CCCC" == text;
    FillTwoLines(Split(text, ' '));
  }


  lemma FillOversized(words: seq<string>)
    requires words == ["AA", "BBBBBBBBBB", "CC"]
    ensures Fill(FivePerChar, 29.0, words, [], "") == words
  {
    var m, w := FivePerChar, 29.0;
    assert Fill(m, w, words, [], "") == Fill(m, w, words[1..], [], "AA");
    assert words[1..][0] == "BBBBBBBBBB" && words[1..][1..] == words[2..];
    assert m("AA" + " " + "BBBBBBBBBB") == 65.0;
    assert [] + ["AA"] == ["AA"];
    assert Fill(m, w, words[1..], [], "AA") == Fill(m, w, words[2..], ["AA"], "BBBBBBBBBB");
    assert words[2..][0] == "CC" && words[2..][1..] == words[3..];
    assert m("BBBBBBBBBB" + " " + "CC") == 65.0;
    assert ["AA"] + ["BBBBBBBBBB"] == ["AA", "BBBBBBBBBB"];
    assert Fill(m, w, words[2..], ["AA"], "BBBBBBBBBB") == Fill(m, w, words[3..], ["AA", "BBBBBBBBBB"], "CC");
  }

  /** A word wider than the limit sits alone on its line and is never split. */
  lemma ExampleOversizedWord(text: string)
    requires text == "AA BBBBBBBBBB CC"
    ensures WrapText(FivePerChar, text, WrapOptions(29.0, 10.0)).lines == ["AA", "BBBBBBBBBB", "CC"]
  {
    SplitThreeWords("AA", "BBBBBBBBBB", "CC");
    assert "AA" + " " + "BBBBBBBBBB" + " " + "CC" == text;
    FillOversized(Split(text, ' '));
  }

  lemma SplitEmptyWordsText()
    ensures Split(" AA  BB", ' ') == ["", "AA", "", "BB"]
  {
    var words := ["", "AA", "", "BB"];
    assert Join(words[2..], ' ') == " BB" by {
      assert words[2..][1..] == ["BB"];
    }
    assert Join(words[1..], ' ') == "AA  BB";
    assert Join(words, ' ') == " AA  BB";
    SplitJoin(words, ' ');
  }

  lemma FillEmptyWords(words: seq<string>)
    requires words == ["", "AA", "", "BB"]
    ensures Fill(FivePerChar, 100.0, words, [], "") == ["AA  BB"]
  {
    var m, w := FivePerChar, 100.0;
    assert Fill(m, w, words, [], "") == Fill(m, w, words[1..], [], "");
    assert words[1..][0] == "AA" && words[1..][1..] == words[2..];
    assert Fill(m, w, words[1..], [], "") == Fill(m, w, words[2..], [], "AA");
    assert words[2..][0] == "" && words[2..][1..] == words[3..];
    assert "AA" + " " + "" == "AA ";
    assert Fill(m, w, words[2..], [], "AA") == Fill(m, w, words[3..], [], "AA ");
    assert words[3..][0] == "BB" && words[3..][1..] == words[4..];
    assert "AA " + " " + "BB" == "AA  BB";
    assert m("AA  BB") == 30.0;
    assert [] + ["AA  BB"] == ["AA  BB"];
    assert Fill(m, w, words[3..], [], "AA ") == Fill(m, w, words[4..], [], "AA  BB");
  }

  /** The empty word of a leading space is dropped; that of a doubled space inside a
      line is kept, so the line carries two spaces. */
  lemma ExampleEmptyWords(text: string)
    requires text == " AA  BB"
    ensures WrapText(FivePerChar, text, WrapOptions(100.0, 10.0)).lines == ["AA  BB"]
  {
    SplitEmptyWordsText();
    FillEmptyWords(Split(text, ' '));
  }
}
