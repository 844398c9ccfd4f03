/** wrapText() of namespaces_of.go: greedy line breaking, and why no other breaking needs fewer lines. */
module WrapText {

  /** The white space of strings.Fields(). */
  predicate IsSpace(c: char) {
    var n := c as int;
    || 9 <= n <= 13 || n == 0x20 || n == 0x85 || n == 0xA0 || n == 0x1680 || 0x2000 <= n <= 0x200A
    || n == 0x2028 || n == 0x2029 || n == 0x202F || n == 0x205F || n == 0x3000
  }

  /** The characters that have the White_Space property in Unicode; of the ASCII ones, tab, newline, vertical tab, form
      feed, carriage return and blank. */
  lemma SpacesAre(c: char)
    ensures c as int < 128 ==> (IsSpace(c) <==> c in {'\t', '\n', '\r', ' ', '\U{0B}', '\U{0C}'})
    ensures c as int >= 128 ==>
      (IsSpace(c) <==> c in {'\U{85}', '\U{A0}', '\U{1680}', '\U{2000}', '\U{2001}', '\U{2002}', '\U{2003}',
        '\U{2004}', '\U{2005}', '\U{2006}', '\U{2007}', '\U{2008}', '\U{2009}', '\U{200A}', '\U{2028}', '\U{2029}',
        '\U{202F}', '\U{205F}', '\U{3000}'})
  {
  }

  /** The bytes of a character in UTF-8. */
  function Bytes(c: char): nat {
    var n := c as int;
    if n < 0x80 then 1 else if n < 0x800 then 2 else if n < 0x10000 then 3 else 4
  }

  /** len(): strings are measured in bytes. */
  function Len(s: string): nat {
    if s == "" then 0 else Len(s[..|s| - 1]) + Bytes(s[|s| - 1])
  }

  /** The number of characters before the first one that is (or is not) a space. */
  function RunLength(s: string, spaces: bool): (k: nat)
    ensures k <= |s|
    ensures forall i :: 0 <= i < k ==> IsSpace(s[i]) == spaces
    ensures k < |s| ==> IsSpace(s[k]) != spaces
  {
    if s == "" || IsSpace(s[0]) != spaces then 0 else 1 + RunLength(s[1..], spaces)
  }

  predicate IsWord(w: string) {
    w != "" && forall i :: 0 <= i < |w| ==> !IsSpace(w[i])
  }

  /** strings.Fields(): the maximal runs without white space, in order. */
  function Fields(s: string): (ws: seq<string>)
    ensures forall i :: 0 <= i < |ws| ==> IsWord(ws[i])
    decreases |s|
  {
    var t := s[RunLength(s, true)..];
    if t == "" then []
    else
      assert !IsSpace(t[0]);
      [t[..RunLength(t, false)]] + Fields(t[RunLength(t, false)..])
  }

  // ---------------------------------------------------------------- lines

  type Line = seq<string>

  /** Bytes in a line: its words and the single blanks between them. */
  function Width(line: Line): nat {
    if |line| == 0 then 0
    else if |line| == 1 then Len(line[0])
    else Width(line[..|line| - 1]) + 1 + Len(line[|line| - 1])
  }

  function Words(lines: seq<Line>): seq<string> {
    if |lines| == 0 then [] else lines[0] + Words(lines[1..])
  }

  /** A breaking into nonempty lines in which only a word on its own may be too wide. */
  ghost predicate Respects(lines: seq<Line>, width: int) {
    forall i :: 0 <= i < |lines| ==> lines[i] != [] && (|lines[i]| > 1 ==> Width(lines[i]) <= width)
  }

  /** The lines of the loop: cur is the line being filled, rest the words still to come. */
  function Greedy(cur: Line, rest: seq<string>, width: int): (lines: seq<Line>)
    decreases |rest|
  {
    if |rest| == 0 then [cur]
    else if Width(cur) + Len(rest[0]) + 1 > width then [cur] + Greedy([rest[0]], rest[1..], width)
    else Greedy(cur + [rest[0]], rest[1..], width)
  }

  lemma WidthGrows(line: Line, w: string)
    requires line != []
    ensures Width(line + [w]) == Width(line) + 1 + Len(w)
  {
    assert (line + [w])[..|line + [w]| - 1] == line;
  }

  lemma WordsStart(line: Line, lines: seq<Line>)
    ensures Words([line] + lines) == line + Words(lines)
  {
    assert ([line] + lines)[1..] == lines;
  }

  /** No word is lost, added or moved, and the result respects the width. */
  lemma {:induction false} GreedyKeepsWords(cur: Line, rest: seq<string>, width: int)
    requires cur != [] && (|cur| > 1 ==> Width(cur) <= width)
    ensures Words(Greedy(cur, rest, width)) == cur + rest
    ensures Respects(Greedy(cur, rest, width), width)
    decreases |rest|
  {
    if |rest| == 0 {
      WordsStart(cur, []);
    } else {
      assert cur + rest == (cur + [rest[0]]) + rest[1..] == cur + ([rest[0]] + rest[1..]);
      if Width(cur) + Len(rest[0]) + 1 > width {
        GreedyKeepsWords([rest[0]], rest[1..], width);
        WordsStart(cur, Greedy([rest[0]], rest[1..], width));
      } else {
        WidthGrows(cur, rest[0]);
        GreedyKeepsWords(cur + [rest[0]], rest[1..], width);
      }
    }
  }

  // ---------------------------------------------------------------- greedy needs the fewest lines

  /** lines breaks the words rest after a line that starts with other. */
  ghost predicate Completes(lines: seq<Line>, other: Line, rest: seq<string>, width: int) {
    lines != [] && Respects(lines, width) && other != [] && other <= lines[0] && Words(lines) == other + rest
  }

  ghost predicate Suffix(a: Line, b: Line) {
    |a| <= |b| && b[|b| - |a|..] == a
  }

  lemma {:induction false} SuffixIsNarrower(a: Line, b: Line)
    requires a != [] && Suffix(a, b)
    ensures Width(a) <= Width(b)
    decreases |a|
  {
    var a', b' := a[..|a| - 1], b[..|b| - 1];
    assert a[|a| - 1] == b[|b| - 1];
    if |a| > 1 {
      assert Suffix(a', b');
      SuffixIsNarrower(a', b');
    }
  }

  lemma {:induction false} PrefixIsNarrower(a: Line, b: Line)
    requires a <= b
    ensures Width(a) <= Width(b)
    decreases |b|
  {
    if |a| == |b| {
      assert a == b;
    } else {
      PrefixIsNarrower(a, b[..|b| - 1]);
    }
  }

  lemma NoWordsNoLines(lines: seq<Line>)
    requires forall i :: 0 <= i < |lines| ==> lines[i] != []
    ensures Words(lines) == [] ==> lines == []
  {
  }

  /** What a completion does with the next word: it goes on the same line, or the line ends here. */
  lemma NextWord(lines: seq<Line>, other: Line, rest: seq<string>, width: int)
    requires Completes(lines, other, rest, width)
    ensures |rest| == 0 ==> lines == [other]
    ensures |rest| > 0 ==>
      || (Completes(lines, other + [rest[0]], rest[1..], width) && Width(other) + 1 + Len(rest[0]) <= width)
      || (lines[0] == other && Completes(lines[1..], [rest[0]], rest[1..], width))
  {
    hide Width;
    if lines[0] == other {
      LineEnds(lines, other, rest, width);
    } else {
      LineGoesOn(lines, other, rest, width);
    }
  }

  lemma LineEnds(lines: seq<Line>, other: Line, rest: seq<string>, width: int)
    requires Completes(lines, other, rest, width) && lines[0] == other
    ensures |rest| == 0 ==> lines == [other]
    ensures |rest| > 0 ==> Completes(lines[1..], [rest[0]], rest[1..], width)
  {
    hide Width;
    var later := lines[1..];
    assert Words(later) == rest by {
      assert Words(lines) == other + Words(later);
      assert rest == (other + rest)[|other|..] == (other + Words(later))[|other|..] == Words(later);
    }
    assert forall i :: 0 <= i < |later| ==> later[i] == lines[i + 1];
    hide Words;
    NoWordsNoLines(later);
    FirstWord(later);
    assert |rest| > 0 ==> [rest[0]] + rest[1..] == rest;
  }

  lemma LineGoesOn(lines: seq<Line>, other: Line, rest: seq<string>, width: int)
    requires Completes(lines, other, rest, width) && lines[0] != other
    ensures |rest| > 0
    ensures Completes(lines, other + [rest[0]], rest[1..], width) && Width(other) + 1 + Len(rest[0]) <= width
  {
    hide Width;
    var line := lines[0];
    assert Words(lines) == line + Words(lines[1..]) == other + rest;
    hide Words;
    assert |line| > |other|;
    assert line[|other|] == (other + rest)[|other|] == rest[0];
    assert other + [rest[0]] <= line;
    assert other + rest == (other + [rest[0]]) + rest[1..];
    WidthGrows(other, rest[0]);
    PrefixIsNarrower(other + [rest[0]], line);
  }

  lemma FirstWord(lines: seq<Line>)
    requires forall i :: 0 <= i < |lines| ==> lines[i] != []
    ensures Words(lines) != [] ==> lines != [] && [Words(lines)[0]] <= lines[0]
  {
  }

  /** Greedy started no earlier on its current line, so it does not fall behind. */
  lemma {:induction false} GreedyStaysAhead(cur: Line, rest: seq<string>, width: int, lines: seq<Line>, other: Line)
    requires cur != [] && Suffix(cur, other) && Completes(lines, other, rest, width)
    ensures |Greedy(cur, rest, width)| <= |lines|
    decreases |rest|, 0
  {
    NextWord(lines, other, rest, width);
    if |rest| > 0 {
      SuffixIsNarrower(cur, other);
      var x, later := rest[0], rest[1..];
      if Completes(lines, other + [x], later, width) && Width(other) + 1 + Len(x) <= width {
        assert Suffix(cur + [x], other + [x]);
        GreedyStaysAhead(cur + [x], later, width, lines, other + [x]);
      } else if Width(cur) + Len(x) + 1 > width {
        GreedyStaysAhead([x], later, width, lines[1..], [x]);
      } else {
        GreedyOneLineLess(cur + [x], later, width, lines[1..], [x]);
      }
    }
  }

  /** Having used a line less so far, greedy can afford to be anywhere on its current line. */
  lemma {:induction false} GreedyOneLineLess(cur: Line, rest: seq<string>, width: int, lines: seq<Line>, other: Line)
    requires cur != [] && Completes(lines, other, rest, width)
    ensures |Greedy(cur, rest, width)| <= 1 + |lines|
    decreases |rest|, 1
  {
    NextWord(lines, other, rest, width);
    if |rest| > 0 {
      var x, later := rest[0], rest[1..];
      var same := Completes(lines, other + [x], later, width);
      if Width(cur) + Len(x) + 1 > width {
        if same {
          assert Suffix([x], other + [x]);
          GreedyStaysAhead([x], later, width, lines, other + [x]);
        } else {
          GreedyStaysAhead([x], later, width, lines[1..], [x]);
        }
      } else {
        if same {
          GreedyOneLineLess(cur + [x], later, width, lines, other + [x]);
        } else {
          GreedyOneLineLess(cur + [x], later, width, lines[1..], [x]);
        }
      }
    }
  }

  /** The lines of the result. */
  function WrappedLines(words: seq<string>, width: int): seq<Line> {
    if |words| == 0 then [] else Greedy([words[0]], words[1..], width)
  }

  /** The result keeps the words and respects the width. */
  lemma WrappedFits(words: seq<string>, width: int)
    ensures Respects(WrappedLines(words, width), width) && Words(WrappedLines(words, width)) == words
  {
    if |words| > 0 {
      hide Greedy, Width;
      assert [words[0]] + words[1..] == words;
      GreedyKeepsWords([words[0]], words[1..], width);
    }
  }

  /** No breaking of the words that respects the width has fewer lines. */
  lemma WrappedIsOptimal(words: seq<string>, width: int, lines: seq<Line>)
    requires Respects(lines, width) && Words(lines) == words
    ensures |WrappedLines(words, width)| <= |lines|
  {
    hide Greedy, Width, Words;
    if |words| > 0 {
      assert [words[0]] + words[1..] == words;
      FirstWord(lines);
      GreedyStaysAhead([words[0]], words[1..], width, lines, [words[0]]);
    }
  }

  // ---------------------------------------------------------------- the text

  function LineText(line: Line): string {
    if |line| == 0 then "" else if |line| == 1 then line[0] else LineText(line[..|line| - 1]) + " " + line[|line| - 1]
  }

  /** Every line with its indent, separated by newlines. */
  function Text(lines: seq<Line>, indent: string): string {
    if |lines| == 0 then ""
    else if |lines| == 1 then indent + LineText(lines[0])
    else Text(lines[..|lines| - 1], indent) + "\n" + indent + LineText(lines[|lines| - 1])
  }

  method Wrap(text: string, width: int, indent: string) returns (result: string)
    ensures result == Text(WrappedLines(Fields(text), width), indent)
  {
    hide Fields, Width, Text, LineText, Greedy;
    var words := Fields(text);
    if |words| == 0 {
      NoText(indent);
      return "";
    }
    result := indent + words[0];
    var column := Len(words[0]);
    ghost var done: seq<Line>, cur: Line := [], [words[0]];
    FirstLine(words[0], indent);
    for i := 1 to |words|
      invariant cur != [] && column == Width(cur)
      invariant WrappedLines(words, width) == done + Greedy(cur, words[i..], width)
      invariant result == Text(done + [cur], indent)
    {
      var word := words[i];
      assert words[i..][0] == word && words[i..][1..] == words[i + 1..];
      GreedyUnfolds(cur, words[i..], width);
      if column + Len(word) + 1 > width {
        result := result + "\n" + indent + word;
        column := Len(word);
        NewLine(done, cur, word, indent);
        assert done + ([cur] + Greedy([word], words[i + 1..], width))
            == done + [cur] + Greedy([word], words[i + 1..], width);
        done, cur := done + [cur], [word];
      } else {
        result := result + " " + word;
        column := column + 1 + Len(word);
        WidthGrows(cur, word);
        LastLineGrows(done, cur, word, indent);
        cur := cur + [word];
      }
    }
    assert words[|words|..] == [];
    GreedyUnfolds(cur, [], width);
  }

  lemma NoText(indent: string)
    ensures Text([], indent) == ""
  {
  }

  lemma FirstLine(word: string, indent: string)
    ensures Text([] + [[word]], indent) == indent + word && Width([word]) == Len(word)
  {
  }

  lemma GreedyUnfolds(cur: Line, rest: seq<string>, width: int)
    ensures |rest| == 0 ==> Greedy(cur, rest, width) == [cur]
    ensures |rest| > 0 ==>
      Greedy(cur, rest, width) ==
      if Width(cur) + Len(rest[0]) + 1 > width then [cur] + Greedy([rest[0]], rest[1..], width)
      else Greedy(cur + [rest[0]], rest[1..], width)
  {
  }

  lemma NewLine(done: seq<Line>, cur: Line, word: string, indent: string)
    ensures Text(done + [cur] + [[word]], indent) == Text(done + [cur], indent) + "\n" + indent + word
    ensures Width([word]) == Len(word)
  {
    assert (done + [cur] + [[word]])[..|done| + 1] == done + [cur];
  }

  lemma LastLineGrows(done: seq<Line>, cur: Line, word: string, indent: string)
    requires cur != []
    ensures Text(done + [cur + [word]], indent) == Text(done + [cur], indent) + " " + word
  {
    assert (cur + [word])[..|cur|] == cur;
    assert (done + [cur + [word]])[..|done|] == done == (done + [cur])[..|done|];
  }

  // ---------------------------------------------------------------- reading the result back

  lemma {:induction false} RunLengthOf(a: string, b: string, spaces: bool)
    requires forall i :: 0 <= i < |a| ==> IsSpace(a[i]) == spaces
    requires b == "" || IsSpace(b[0]) != spaces
    ensures RunLength(a + b, spaces) == |a|
  {
    hide IsSpace;
    if a == "" {
      assert a + b == b;
    } else {
      assert (a + b)[1..] == a[1..] + b;
      RunLengthOf(a[1..], b, spaces);
    }
  }

  /** Fields() depends only on what follows the leading white space. */
  lemma SameFields(s: string, t: string, j: nat, k: nat)
    requires j == RunLength(s, true) <= |s| && k == RunLength(t, true) <= |t| && s[j..] == t[k..]
    ensures Fields(s) == Fields(t)
  {
    hide RunLength, IsSpace;
  }

  lemma LeadingSpace(s: string) returns (k: nat)
    ensures k == RunLength(s, true) <= |s|
    ensures forall i :: 0 <= i < k ==> IsSpace(s[i])
    ensures s[k..] == "" || !IsSpace(s[k..][0])
  {
    k := RunLength(s, true);
    hide IsSpace;
  }

  /** Leading white space does not matter. */
  lemma FieldsSkip(a: string, s: string)
    requires forall i :: 0 <= i < |a| ==> IsSpace(a[i])
    ensures Fields(a + s) == Fields(s)
  {
    hide IsSpace, Fields, RunLength;
    var k := LeadingSpace(s);
    var skipped := a + s[..k];
    assert a + s == skipped + s[k..];
    RunLengthOf(skipped, s[k..], true);
    assert (a + s)[|skipped|..] == s[k..];
    SameFields(a + s, s, |skipped|, k);
  }

  /** A word, and then nothing or white space, is the first field. */
  lemma FieldsWord(w: string, s: string)
    requires IsWord(w) && (s == "" || IsSpace(s[0]))
    ensures Fields(w + s) == [w] + Fields(s)
  {
    hide IsSpace;
    var t := w + s;
    RunLengthOf("", t, true);
    assert "" + t == t;
    RunLengthOf(w, s, false);
    assert t[..|w|] == w && t[|w|..] == s;
  }

  lemma LineTextUnfolds(line: Line)
    requires line != []
    ensures |line| == 1 ==> LineText(line) == line[|line| - 1]
    ensures |line| > 1 ==> LineText(line) == LineText(line[..|line| - 1]) + (" " + line[|line| - 1])
  {
  }

  /** The text of a line, and then nothing or white space, reads back as the words of the line. */
  lemma {:induction false} FieldsLine(line: Line, s: string)
    requires line != [] && (forall i :: 0 <= i < |line| ==> IsWord(line[i])) && (s == "" || IsSpace(s[0]))
    ensures Fields(LineText(line) + s) == line + Fields(s)
    decreases |line|
  {
    hide Fields, LineText, IsWord;
    var last := line[|line| - 1];
    LineTextUnfolds(line);
    FieldsWord(last, s);
    if |line| == 1 {
      assert line == [last];
    } else {
      var init, after := line[..|line| - 1], " " + (last + s);
      FieldsLine(init, after);
      FieldsSkip(" ", last + s);
      assert LineText(line) + s == LineText(init) + after;
      assert line == init + [last];
      assert init + ([last] + Fields(s)) == line + Fields(s);
    }
  }

  lemma TextUnfolds(lines: seq<Line>, indent: string)
    requires lines != []
    ensures |lines| == 1 ==> Text(lines, indent) == indent + LineText(lines[|lines| - 1])
    ensures |lines| > 1 ==>
      Text(lines, indent) == Text(lines[..|lines| - 1], indent) + ("\n" + (indent + LineText(lines[|lines| - 1])))
  {
    hide LineText;
    if |lines| > 1 {
      var t, u := Text(lines[..|lines| - 1], indent), LineText(lines[|lines| - 1]);
      assert t + "\n" + indent + u == t + ("\n" + (indent + u));
    }
  }

  /** The last line of a text, and then nothing or white space, reads back as its words. */
  lemma FieldsLastLine(last: Line, indent: string, s: string)
    requires forall i :: 0 <= i < |indent| ==> IsSpace(indent[i])
    requires last != [] && (forall i :: 0 <= i < |last| ==> IsWord(last[i])) && (s == "" || IsSpace(s[0]))
    ensures Fields(indent + LineText(last) + s) == last + Fields(s)
    ensures Fields("\n" + (indent + LineText(last)) + s) == last + Fields(s)
  {
    hide Fields, LineText, IsWord, IsSpace;
    FieldsLine(last, s);
    var t := LineText(last) + s;
    FieldsSkip(indent, t);
    Associates(indent, LineText(last), s);
    NewlineIsSpace();
    FieldsSkip("\n", indent + t);
    Associates("\n", indent + LineText(last), s);
  }

  lemma Associates(a: string, b: string, c: string)
    ensures a + b + c == a + (b + c)
  {
  }

  lemma NewlineIsSpace()
    ensures IsSpace("\n"[0])
  {
  }

  lemma {:induction false} FieldsText(lines: seq<Line>, indent: string, s: string)
    requires forall i :: 0 <= i < |indent| ==> IsSpace(indent[i])
    requires lines != [] && (forall i :: 0 <= i < |lines| ==> lines[i] != [])
    requires forall w :: w in Words(lines) ==> IsWord(w)
    requires s == "" || IsSpace(s[0])
    ensures Fields(Text(lines, indent) + s) == Words(lines) + Fields(s)
    decreases |lines|
  {
    hide Fields, LineText, Text, IsWord, Words;
    var init, last := lines[..|lines| - 1], lines[|lines| - 1];
    assert lines == init + [last];
    WordsAppend(init, last);
    assert forall w :: w in last ==> w in Words(lines);
    assert forall w :: w in Words(init) ==> w in Words(lines);
    FieldsLastLine(last, indent, s);
    TextUnfolds(lines, indent);
    if |lines| == 1 {
      NoLines(init);
      assert [] + last == last;
    } else {
      var after := "\n" + (indent + LineText(last)) + s;
      FieldsText(init, indent, after);
      assert Text(lines, indent) + s == Text(init, indent) + after;
      assert Words(init) + (last + Fields(s)) == Words(lines) + Fields(s);
    }
  }

  lemma NoLines(lines: seq<Line>)
    requires |lines| == 0
    ensures Words(lines) == []
  {
  }

  lemma {:induction false} WordsAppend(lines: seq<Line>, last: Line)
    ensures Words(lines + [last]) == Words(lines) + last
    decreases |lines|
  {
    if |lines| == 0 {
      assert lines + [last] == [last];
    } else {
      assert (lines + [last])[1..] == lines[1..] + [last];
      WordsAppend(lines[1..], last);
    }
  }

  /** Wrapped text, indented with white space, has the words of the text. */
  lemma WrappingKeepsWords(text: string, width: int, indent: string)
    requires forall i :: 0 <= i < |indent| ==> IsSpace(indent[i])
    ensures Fields(Text(WrappedLines(Fields(text), width), indent)) == Fields(text)
  {
    var words := Fields(text);
    if |words| > 0 {
      assert [words[0]] + words[1..] == words;
      GreedyKeepsWords([words[0]], words[1..], width);
      var lines := WrappedLines(words, width);
      FieldsText(lines, indent, "");
      assert Text(lines, indent) + "" == Text(lines, indent);
    }
  }

  // ---------------------------------------------------------------- how wide the lines are

  ghost predicate Ascii(s: string) {
    forall i :: 0 <= i < |s| ==> s[i] < 128 as char
  }

  /** A text has as many bytes as characters exactly if it is ASCII, and at most four for each character. */
  lemma {:induction false} LenBounds(s: string)
    ensures |s| <= Len(s) <= 4 * |s|
    ensures Len(s) == |s| <==> Ascii(s)
    decreases |s|
  {
    if s != "" {
      LenBounds(s[..|s| - 1]);
      assert s[|s| - 1] >= 128 as char ==> !Ascii(s);
      assert Ascii(s[..|s| - 1]) && s[|s| - 1] < 128 as char ==> Ascii(s);
    }
  }

  /** The scalar values of each length in UTF-8, as section 3 of RFC 3629 has them. */
  lemma LenOfOne(c: char)
    ensures Len([c]) == 1 <==> c as int <= 0x7F
    ensures Len([c]) == 2 <==> 0x80 <= c as int <= 0x7FF
    ensures Len([c]) == 3 <==> 0x800 <= c as int <= 0xFFFF
    ensures Len([c]) == 4 <==> 0x10000 <= c as int <= 0x10FFFF
  {
    assert [c][..0] == "";
    assert Len([]) == 0;
  }

  lemma {:induction false} LenAdds(s: string, t: string)
    ensures Len(s + t) == Len(s) + Len(t)
    decreases |t|
  {
    if t == "" {
      assert s + t == s;
    } else {
      assert (s + t)[..|s + t| - 1] == s + t[..|t| - 1];
      LenAdds(s, t[..|t| - 1]);
    }
  }

  /** The width of a line is the length of its text. */
  lemma {:induction false} WidthIsLen(line: Line)
    ensures Width(line) == Len(LineText(line))
    decreases |line|
  {
    if |line| > 1 {
      var init, last := line[..|line| - 1], line[|line| - 1];
      WidthIsLen(init);
      LenOfOne(' ');
      LenAdds(LineText(init), " ");
      LenAdds(LineText(init) + " ", last);
      hide Len;
    }
  }

  /** A line of several words fits into the width, in bytes and so in characters. If the next word had no room on its
      line, then no shorter text would have made it fit: a line is broken only where the next word would not fit. */
  lemma LinesFit(words: seq<string>, width: int, i: nat)
    requires i < |WrappedLines(words, width)|
    ensures var lines := WrappedLines(words, width);
      && (|lines[i]| > 1 ==> |LineText(lines[i])| <= Len(LineText(lines[i])) <= width)
      && (i + 1 < |lines| ==> lines[i + 1] != [] && Len(LineText(lines[i]) + " " + lines[i + 1][0]) > width)
  {
    hide Greedy, Width, LineText, Len, Words;
    var lines := WrappedLines(words, width);
    WrappedFits(words, width);
    WidthIsLen(lines[i]);
    LenBounds(LineText(lines[i]));
    if i + 1 < |lines| {
      GreedyBreaks([words[0]], words[1..], width, i);
      var text, next := LineText(lines[i]), lines[i + 1][0];
      LenOfOne(' ');
      LenAdds(text, " ");
      LenAdds(text + " ", next);
    }
  }

  lemma {:induction false} GreedyBreaks(cur: Line, rest: seq<string>, width: int, i: nat)
    requires i + 1 < |Greedy(cur, rest, width)|
    ensures var lines := Greedy(cur, rest, width);
      lines[i + 1] != [] && Width(lines[i]) + 1 + Len(lines[i + 1][0]) > width
    decreases |rest|
  {
    hide Width, Len;
    var next, later := rest[0], rest[1..];
    if Width(cur) + Len(next) + 1 > width {
      var lines := Greedy([next], later, width);
      GreedyStarts([next], later, width);
      if i > 0 {
        GreedyBreaks([next], later, width, i - 1);
      }
    } else {
      GreedyBreaks(cur + [next], later, width, i);
    }
  }

  lemma {:induction false} GreedyStarts(cur: Line, rest: seq<string>, width: int)
    ensures Greedy(cur, rest, width) != [] && cur <= Greedy(cur, rest, width)[0]
    decreases |rest|
  {
    hide Width, Len;
    if |rest| > 0 && Width(cur) + Len(rest[0]) + 1 <= width {
      GreedyStarts(cur + [rest[0]], rest[1..], width);
    }
  }

  // ---------------------------------------------------------------- the lines as they are printed

  /** The pieces of a text between its newlines. */
  function Pieces(s: string): (ps: seq<string>)
    ensures ps != []
  {
    if s == "" then [""]
    else
      var ps, c := Pieces(s[..|s| - 1]), s[|s| - 1];
      if c == '\n' then ps + [""] else ps[..|ps| - 1] + [ps[|ps| - 1] + [c]]
  }

  lemma {:induction false} PiecesGrow(s: string, t: string)
    requires '\n' !in t
    ensures Pieces(s + t) == Pieces(s)[..|Pieces(s)| - 1] + [Pieces(s)[|Pieces(s)| - 1] + t]
    decreases |t|
  {
    var ps := Pieces(s);
    if t == "" {
      assert s + t == s && ps[|ps| - 1] + t == ps[|ps| - 1];
    } else {
      var init, c := t[..|t| - 1], t[|t| - 1];
      PiecesGrow(s, init);
      assert (s + t)[..|s + t| - 1] == s + init;
      assert c in t && c != '\n';
      assert (ps[|ps| - 1] + init) + [c] == ps[|ps| - 1] + t;
    }
  }

  lemma PiecesEnd(s: string)
    ensures Pieces(s + "\n") == Pieces(s) + [""]
  {
    assert (s + "\n")[..|s|] == s;
  }

  ghost predicate WordLines(lines: seq<Line>) {
    forall i, j :: 0 <= i < |lines| && 0 <= j < |lines[i]| ==> IsWord(lines[i][j])
  }

  lemma {:induction false} NoNewlineInLine(line: Line)
    requires forall j :: 0 <= j < |line| ==> IsWord(line[j])
    ensures '\n' !in LineText(line)
    decreases |line|
  {
    NewlineIsSpace();
    hide IsSpace;
    if |line| > 1 {
      NoNewlineInLine(line[..|line| - 1]);
    }
  }

  /** The printed text has one line for each line of words, in order: the indent and then the words with single blanks
      between them. */
  lemma {:induction false} TextPieces(lines: seq<Line>, indent: string)
    requires lines != [] && WordLines(lines) && '\n' !in indent
    ensures var ps := Pieces(Text(lines, indent));
      |ps| == |lines| && forall i :: 0 <= i < |lines| ==> ps[i] == indent + LineText(lines[i])
    decreases |lines|
  {
    hide Pieces, LineText, IsWord;
    var init, last := lines[..|lines| - 1], lines[|lines| - 1];
    var t := indent + LineText(last);
    NoNewlineInLine(last);
    TextUnfolds(lines, indent);
    if |lines| == 1 {
      PiecesOf(t);
    } else {
      assert forall i, j :: 0 <= i < |init| && 0 <= j < |init[i]| ==> init[i][j] == lines[i][j];
      TextPieces(init, indent);
      hide Text, WordLines;
      OnePieceMore(Text(init, indent), t);
    }
  }

  lemma OnePieceMore(s: string, t: string)
    requires '\n' !in t
    ensures Pieces(s + ("\n" + t)) == Pieces(s) + [t]
  {
    hide Pieces;
    PiecesEnd(s);
    PiecesGrow(s + "\n", t);
    assert s + "\n" + t == s + ("\n" + t);
    assert "" + t == t;
  }

  lemma PiecesOf(t: string)
    requires '\n' !in t
    ensures Pieces(t) == [t]
  {
    PiecesGrow("", t);
    assert "" + t == t;
  }
}
