// What a text/plain; format=flowed text says (RFC 3676, section 4), and what becomes of it in
// rfc3676.c: paragraphs are kept apart by the width of their open line.
module FlowedReading {
  import opened Wrappers

  // The options and the state that the layout depends on: $text_flowed, $reflow_space_quotes,
  // whether a reply is being written, the prefix, and the columns there are.
  datatype Config = Config(textFlowed: bool, reflowSpaceQuotes: bool, replying: bool, prefix: Option<string>, wrapCols: int)

  // What the layout depends on: the options, the widths of characters (for mutt_strwidth), whether
  // the part says DelSp=yes, and whether it says anything about DelSp.
  datatype Layout = Layout(c: Config, cw: char -> nat, delsp: bool, given: bool)

  const FLOWED_MAX: nat := 72

  function SpaceQuotes(c: Config): bool {
    if c.textFlowed && c.replying then false else c.reflowSpaceQuotes
  }

  function AddQuoteSuffix(c: Config, ql: nat): bool {
    if c.replying then false
    else if SpaceQuotes(c) then false
    else if ql == 0 && c.prefix.None? then false
    else if !c.textFlowed && ql == 0 && c.prefix.Some? then false
    else true
  }

  // quote_width
  function QuoteWidth(c: Config, ql: nat): (w: nat)
    ensures w > 0
  {
    var reply := c.textFlowed && c.replying;
    var level := if reply then ql + 1 else ql;
    var width := (if reply && c.wrapCols > FLOWED_MAX then FLOWED_MAX else c.wrapCols)
                 - (if SpaceQuotes(c) then level * 2 else level) - (if AddQuoteSuffix(c, level) then 1 else 0);
    if width <= 0 then FLOWED_MAX else width
  }

  // The columns of a text, for characters of the given widths.
  function Cols(cw: char -> nat, s: string): nat {
    if s == "" then 0 else cw(s[0]) + Cols(cw, s[1..])
  }

  lemma {:induction false} ColsAppend(cw: char -> nat, a: string, b: string)
    ensures Cols(cw, a + b) == Cols(cw, a) + Cols(cw, b)
  {
    if a == "" {
      assert a + b == b;
    } else {
      assert (a + b)[1..] == a[1..] + b;
      ColsAppend(cw, a[1..], b);
    }
  }

  lemma One(cw: char -> nat, ch: char)
    ensures Cols(cw, [ch]) == cw(ch) && Cols(cw, "") == 0
  {
    assert [ch][1..] == "";
  }

  // --- indents ---

  ghost function QuoteMarks(c: Config, ql: nat): string {
    if ql == 0 then "" else QuoteMarks(c, ql - 1) + ">" + if SpaceQuotes(c) then " " else ""
  }

  ghost function IndentText(c: Config, ql: nat, suffix: bool): string {
    (if c.prefix.Some? && !c.textFlowed then c.prefix.value else "") +
    QuoteMarks(c, if c.prefix.Some? && c.textFlowed then ql + 1 else ql) + if suffix then " " else ""
  }

  // The columns of an indent.
  ghost function IndentCols(y: Layout, ql: nat): nat {
    Cols(y.cw, IndentText(y.c, ql, AddQuoteSuffix(y.c, ql)))
  }

  // --- lines ---

  // get_quote_level
  function QuoteLevel(line: string): (ql: nat)
    ensures ql <= |line| && (forall k :: 0 <= k < ql ==> line[k] == '>') && (ql < |line| ==> line[ql] != '>')
  {
    if line == "" || line[0] != '>' then 0
    else
      assert line[1..] + "" == line[1..];
      1 + QuoteLevel(line[1..])
  }

  // A line without its quote marks and its stuffed space.
  function Unstuffed(line: string): string {
    var rest := line[QuoteLevel(line)..];
    if rest != "" && rest[0] == ' ' then rest[1..] else rest
  }

  predicate FixedLine(line: string) {
    var body := Unstuffed(line);
    body == "" || body[|body| - 1] != ' ' || body == "-- "
  }

  function FlowedText(line: string, delsp: bool): string {
    var body := Unstuffed(line);
    if delsp && !FixedLine(line) then body[..|body| - 1] else body
  }

  // --- words and blanks ---

  // A word with its quote level; a blank; or a break that is not due to wrapping.
  datatype Mark = Text(word: string, level: nat) | Gap | Break

  function FirstBlank(s: string): (n: nat)
    ensures n <= |s| && (forall k :: 0 <= k < n ==> s[k] != ' ') && (n < |s| ==> s[n] == ' ')
  {
    if s == "" || s[0] == ' ' then 0
    else
      assert s[1..] + "" == s[1..];
      1 + FirstBlank(s[1..])
  }

  ghost function Marks(s: string, level: nat): seq<Mark>
    decreases |s|
  {
    if s == "" then []
    else if s[0] == ' ' then [Gap] + Marks(s[1..], level)
    else var n := FirstBlank(s); [Text(s[..n], level)] + Marks(s[n..], level)
  }

  predicate AllBlank(s: string) {
    forall k :: 0 <= k < |s| ==> s[k] == ' '
  }

  // In a text of blanks only, mutt_str_sep finds one more.
  ghost function LineMarks(s: string, level: nat): seq<Mark> {
    Marks(s, level) + if AllBlank(s) then [Gap] else []
  }

  lemma {:induction false} FirstBlankIs(s: string, n: nat)
    requires n <= |s| && (forall k :: 0 <= k < n ==> s[k] != ' ') && (n < |s| ==> s[n] == ' ')
    ensures FirstBlank(s) == n
  {
  }

  lemma MarksStep(s: string, level: nat)
    requires s != ""
    ensures s[0] == ' ' ==> Marks(s, level) == [Gap] + Marks(s[1..], level)
    ensures s[0] != ' ' ==> FirstBlank(s) > 0 && Marks(s, level) == [Text(s[..FirstBlank(s)], level)] + Marks(s[FirstBlank(s)..], level)
  {
  }

  // A text can be parted beside a blank.
  lemma {:induction false} MarksAppend(a: string, b: string, level: nat)
    requires a == "" || b == "" || a[|a| - 1] == ' ' || b[0] == ' '
    ensures Marks(a + b, level) == Marks(a, level) + Marks(b, level)
    decreases |a|
  {
    hide Marks, FirstBlank;
    if a == "" {
      NoMarks(level);
      assert a + b == b;
    } else if b == "" {
      NoMarks(level);
      assert a + b == a;
    } else if a[0] == ' ' {
      MarksStep(a, level);
      MarksStep(a + b, level);
      assert (a + b)[1..] == a[1..] + b;
      MarksAppend(a[1..], b, level);
    } else {
      var n := FirstBlank(a);
      MarksStep(a, level);
      MarksStep(a + b, level);
      FirstBlankIs(a + b, n);
      assert (a + b)[..n] == a[..n] && (a + b)[n..] == a[n..] + b;
      MarksAppend(a[n..], b, level);
    }
  }

  lemma NoMarks(level: nat)
    ensures Marks("", level) == []
  {
  }

  lemma MarksOne(word: string, level: nat)
    ensures Marks("", level) == [] && Marks(" ", level) == [Gap]
    ensures word != "" && (forall k :: 0 <= k < |word| ==> word[k] != ' ') ==> Marks(word, level) == [Text(word, level)]
  {
    assert " "[1..] == "";
    if word != "" && (forall k :: 0 <= k < |word| ==> word[k] != ' ') {
      FirstBlankIs(word, |word|);
      assert word[..|word|] == word && word[|word|..] == "";
    }
  }

  ghost function Gaps(n: nat): seq<Mark> {
    if n == 0 then [] else Gaps(n - 1) + [Gap]
  }

  lemma {:induction false} GapsAppend(m: nat, n: nat)
    ensures Gaps(m + n) == Gaps(m) + Gaps(n)
  {
    if n > 0 { GapsAppend(m, n - 1); }
  }

  // Without the blanks at the end.
  ghost function Stripped(marks: seq<Mark>): seq<Mark> {
    if marks != [] && marks[|marks| - 1] == Gap then Stripped(marks[..|marks| - 1]) else marks
  }

  lemma {:induction false} StrippedGaps(marks: seq<Mark>, n: nat)
    ensures Stripped(marks + Gaps(n)) == Stripped(marks)
  {
    if n == 0 {
      assert marks + [] == marks;
    } else {
      assert (marks + Gaps(n))[..|marks| + |Gaps(n - 1)|] == marks + Gaps(n - 1);
      StrippedGaps(marks, n - 1);
    }
  }

  lemma {:induction false} StrippedIs(marks: seq<Mark>)
    ensures |Stripped(marks)| <= |marks| && marks == Stripped(marks) + Gaps(|marks| - |Stripped(marks)|)
    ensures Stripped(Stripped(marks)) == Stripped(marks)
  {
    if marks != [] && marks[|marks| - 1] == Gap { StrippedIs(marks[..|marks| - 1]); }
  }

  // --- what a text says ---

  // Its words and blanks with their quote levels, and its breaks; whether a paragraph is open, and at
  // which level.
  datatype Reading = Reading(marks: seq<Mark>, open: bool, level: nat)

  ghost function Ended(r: Reading): Reading {
    Reading(Stripped(r.marks) + if r.open then [Break] else [], false, r.level)
  }

  // One more line. A change of level ends the paragraph (section 4.5 of RFC 3676); a fixed line ends
  // the open one, or stands alone; a signature separator stands alone; so does an empty line.  The
  // paragraph is open after flowed text if `open` says so.
  ghost function ReadLine(r: Reading, line: string, delsp: bool, open: bool): Reading {
    var r1 := Levelled(r, line);
    var l, body, text := QuoteLevel(line), Unstuffed(line), FlowedText(line, delsp);
    if StandsAlone(r1.open, line) then Reading(Ended(r1).marks + Marks(body, l) + [Break], false, l)
    else if text == "" then Reading(Ended(r1).marks + [Break], false, l)
    else
      var r2 := Reading(r1.marks + LineMarks(text, l), open, l);
      if FixedLine(line) then Ended(r2) else r2
  }

  ghost function Levelled(r: Reading, line: string): Reading {
    if QuoteLevel(line) != r.level then Ended(r) else r
  }

  ghost predicate StandsAlone(open: bool, line: string) {
    (FixedLine(line) && (!open || line == "")) || Unstuffed(line) == "-- "
  }

  // The paragraph is open if it was, or there is a word.
  ghost function ReadLines(lines: seq<string>, delsp: bool): Reading {
    if lines == [] then Reading([], false, 0)
    else
      var r, line := ReadLines(lines[..|lines| - 1], delsp), lines[|lines| - 1];
      ReadLine(r, line, delsp, Levelled(r, line).open || !AllBlank(FlowedText(line, delsp)))
  }

  // --- what becomes of it ---

  // The columns of the open line, and the blanks not yet printed.
  datatype Fill = Fill(width: nat, spaces: nat)

  // Too wide for the rest of the line, but not for a line of its own.
  ghost predicate Overflows(y: Layout, f: Fill, ql: nat, w: nat, last: char) {
    !(f.spaces == 0 && y.given && last != ' ') && w < QuoteWidth(y.c, ql) && w + f.width + f.spaces > QuoteWidth(y.c, ql)
  }

  // A word of w columns; seen: it is not the first one of its text.
  ghost function FillWord(y: Layout, f: Fill, ql: nat, w: nat, seen: bool, last: char): Fill {
    var g := Fill(f.width, f.spaces + if seen then 1 else 0);
    if Overflows(y, g, ql, w, last) then Fill(IndentCols(y, ql) + w, 0)
    else Fill((if !seen && g.width == 0 then IndentCols(y, ql) else g.width) + g.spaces + w, 0)
  }

  ghost function FillText(y: Layout, f: Fill, ql: nat, s: string, seen: bool, last: char): Fill
    decreases |s|
  {
    var n := FirstBlank(s);
    var g := if n == 0 then Fill(f.width, f.spaces + 1) else FillWord(y, f, ql, Cols(y.cw, s[..n]), seen, last);
    if n == |s| then g else FillText(y, g, ql, s[n + 1..], seen || n > 0, last)
  }

  // What is open before a line: nothing, if the level changes.
  ghost function FillLevelled(f: Fill, level: nat, line: string): Fill {
    if QuoteLevel(line) != level then Fill(0, 0) else f
  }

  ghost function TextFill(y: Layout, f: Fill, line: string): Fill {
    var text := FlowedText(line, y.delsp);
    if text == "" then f else FillText(y, f, QuoteLevel(line), text, false, text[|text| - 1])
  }

  // The paragraph is open after the flowed text of a line if its open line has a width.
  ghost predicate LineOpen(y: Layout, f: Fill, level: nat, line: string) {
    TextFill(y, FillLevelled(f, level, line), line).width > 0
  }

  ghost function FillLine(y: Layout, f: Fill, level: nat, line: string): Fill {
    var g := FillLevelled(f, level, line);
    if StandsAlone(g.width > 0, line) || FlowedText(line, y.delsp) == "" || FixedLine(line) then Fill(0, 0) else TextFill(y, g, line)
  }

  ghost function LevelOf(lines: seq<string>): nat {
    if lines == [] then 0 else QuoteLevel(lines[|lines| - 1])
  }

  ghost function Fills(y: Layout, lines: seq<string>): Fill {
    if lines == [] then Fill(0, 0)
    else FillLine(y, Fills(y, lines[..|lines| - 1]), LevelOf(lines[..|lines| - 1]), lines[|lines| - 1])
  }

  // What comes out: the paragraph is open as long as its open line has a width.
  ghost function Shown(y: Layout, lines: seq<string>): Reading {
    if lines == [] then Reading([], false, 0)
    else
      var front, line := lines[..|lines| - 1], lines[|lines| - 1];
      ReadLine(Shown(y, front), line, y.delsp, LineOpen(y, Fills(y, front), LevelOf(front), line))
  }

  lemma ShownMore(y: Layout, lines: seq<string>, line: string)
    ensures Shown(y, lines + [line]) == ReadLine(Shown(y, lines), line, y.delsp, LineOpen(y, Fills(y, lines), LevelOf(lines), line))
    ensures Fills(y, lines + [line]) == FillLine(y, Fills(y, lines), LevelOf(lines), line) && LevelOf(lines + [line]) == QuoteLevel(line)
  {
    hide ReadLine, LineOpen, FillLine;
    assert (lines + [line])[..|lines|] == lines;
  }

  lemma {:induction false} ShownOpen(y: Layout, lines: seq<string>)
    ensures Shown(y, lines).open == (Fills(y, lines).width > 0) && Shown(y, lines).level == LevelOf(lines)
  {
    hide FixedLine, Unstuffed, FlowedText, Marks, Stripped, TextFill, QuoteLevel;
    if lines != [] { ShownOpen(y, lines[..|lines| - 1]); }
  }

  // --- all text is there ---

  // The words alone.
  ghost function Chars(marks: seq<Mark>): string {
    if marks == [] then "" else Chars(marks[..|marks| - 1]) + if marks[|marks| - 1].Text? then marks[|marks| - 1].word else ""
  }

  lemma {:induction false} CharsAppend(a: seq<Mark>, b: seq<Mark>)
    ensures Chars(a + b) == Chars(a) + Chars(b)
  {
    if b == [] {
      assert a + b == a;
    } else {
      assert (a + b)[..|a + b| - 1] == a + b[..|b| - 1];
      CharsAppend(a, b[..|b| - 1]);
    }
  }

  // The text of the lines behind the quote marks, without blanks.
  ghost function SourceText(lines: seq<string>): string {
    if lines == [] then ""
    else SourceText(lines[..|lines| - 1]) + NonSpace(lines[|lines| - 1][QuoteLevel(lines[|lines| - 1])..])
  }

  ghost function NonSpace(s: string): string {
    if s == "" then "" else (if s[0] == ' ' then "" else [s[0]]) + NonSpace(s[1..])
  }

  lemma {:induction false} NonSpaceAppend(a: string, b: string)
    ensures NonSpace(a + b) == NonSpace(a) + NonSpace(b)
  {
    if a == "" {
      assert a + b == b;
    } else {
      assert (a + b)[1..] == a[1..] + b;
      NonSpaceAppend(a[1..], b);
    }
  }

  lemma {:induction false} NonSpaceWord(word: string)
    requires forall k :: 0 <= k < |word| ==> word[k] != ' '
    ensures NonSpace(word) == word
  {
    if word != "" { NonSpaceWord(word[1..]); }
  }

  lemma {:induction false} MarksChars(s: string, ql: nat)
    ensures Chars(Marks(s, ql)) == NonSpace(s)
    decreases |s|
  {
    hide Marks, FirstBlank;
    if s == "" {
      NoMarks(ql);
    } else if s[0] == ' ' {
      MarksStep(s, ql);
      MarksChars(s[1..], ql);
      CharsAppend([Gap], Marks(s[1..], ql));
    } else {
      var n := FirstBlank(s);
      MarksStep(s, ql);
      MarksChars(s[n..], ql);
      CharsAppend([Text(s[..n], ql)], Marks(s[n..], ql));
      NonSpaceWord(s[..n]);
      NonSpaceAppend(s[..n], s[n..]);
      assert s[..n] + s[n..] == s && [Text(s[..n], ql)][..0] == [];
    }
  }

  lemma {:induction false} GapChars(n: nat)
    ensures Chars(Gaps(n)) == ""
  {
    if n > 0 {
      GapChars(n - 1);
      assert (Gaps(n - 1) + [Gap])[..|Gaps(n - 1)|] == Gaps(n - 1);
    }
  }

  lemma EndedChars(r: Reading)
    ensures Chars(Ended(r).marks) == Chars(r.marks) && Chars([Break]) == "" && Chars([Gap]) == "" && Chars([]) == ""
  {
    var s := Stripped(r.marks);
    StrippedIs(r.marks);
    GapChars(|r.marks| - |s|);
    CharsAppend(s, Gaps(|r.marks| - |s|));
    CharsAppend(s, if r.open then [Break] else []);
    assert [Break][..0] == [] && [Gap][..0] == [];
  }

  // Neither a stuffed space nor a blank stripped for DelSp is text.
  lemma BodyText(line: string, delsp: bool)
    ensures NonSpace(Unstuffed(line)) == NonSpace(line[QuoteLevel(line)..])
    ensures NonSpace(FlowedText(line, delsp)) == NonSpace(line[QuoteLevel(line)..])
  {
    var body, rest := Unstuffed(line), line[QuoteLevel(line)..];
    assert NonSpace(rest) == NonSpace(body);
    if body != "" && body[|body| - 1] == ' ' {
      assert body == body[..|body| - 1] + " " && " "[1..] == "";
      NonSpaceAppend(body[..|body| - 1], " ");
    }
  }

  lemma ReadLineChars(r: Reading, line: string, delsp: bool, open: bool)
    ensures Chars(ReadLine(r, line, delsp, open).marks) == Chars(r.marks) + NonSpace(line[QuoteLevel(line)..])
  {
    hide QuoteLevel, Unstuffed, FixedLine, FlowedText, Marks, NonSpace, Chars, Stripped;
    var r1 := Levelled(r, line);
    var l, body, text := QuoteLevel(line), Unstuffed(line), FlowedText(line, delsp);
    EndedChars(r);
    EndedChars(r1);
    BodyText(line, delsp);
    MarksChars(body, l);
    MarksChars(text, l);
    MarksOne("", l);
    MarksChars("", l);
    CharsAppend(Ended(r1).marks, Marks(body, l));
    CharsAppend(Ended(r1).marks + Marks(body, l), [Break]);
    CharsAppend(Ended(r1).marks, [Break]);
    CharsAppend(Marks(text, l), if AllBlank(text) then [Gap] else []);
    CharsAppend(r1.marks, LineMarks(text, l));
    EndedChars(Reading(r1.marks + LineMarks(text, l), open, l));
  }

  // No text is dropped, doubled or moved.
  lemma {:induction false} TextKept(y: Layout, lines: seq<string>)
    ensures Chars(Ended(Shown(y, lines)).marks) == SourceText(lines)
  {
    hide ReadLine, LineOpen, NonSpace, QuoteLevel, Stripped;
    EndedChars(Shown(y, lines));
    if lines != [] {
      var front, line := lines[..|lines| - 1], lines[|lines| - 1];
      TextKept(y, front);
      EndedChars(Shown(y, front));
      ReadLineChars(Shown(y, front), line, y.delsp, LineOpen(y, Fills(y, front), LevelOf(front), line));
    }
  }

  // --- when paragraphs are kept apart ---

  // A break or a blank between two paragraphs is lost: the paragraph that the line ends has no width.
  ghost predicate Loses(y: Layout, f: Fill, open: bool, level: nat, line: string) {
    open &&
    if QuoteLevel(line) != level || FlowedText(line, y.delsp) == "" || StandsAlone(true, line) then f.width == 0
    else FixedLine(line) && if f.width == 0 then f.spaces > 0 else !LineOpen(y, f, level, line)
  }

  // No line of the first n loses anything.
  ghost predicate LosesNone(y: Layout, lines: seq<string>) {
    lines != [] ==>
      var front, line := lines[..|lines| - 1], lines[|lines| - 1];
      LosesNone(y, front) && !Loses(y, Fills(y, front), ReadLines(front, y.delsp).open, LevelOf(front), line)
  }

  // --- blanks at the end ---

  ghost function Trailing(marks: seq<Mark>): (n: nat)
    ensures n <= |marks|
  {
    if marks != [] && marks[|marks| - 1] == Gap then 1 + Trailing(marks[..|marks| - 1]) else 0
  }

  lemma {:induction false} TrailingIs(marks: seq<Mark>)
    ensures Stripped(marks) == marks[..|marks| - Trailing(marks)] && Trailing(Stripped(marks)) == 0
  {
    if marks != [] && marks[|marks| - 1] == Gap {
      TrailingIs(marks[..|marks| - 1]);
      assert marks[..|marks| - 1][..|marks| - 1 - Trailing(marks[..|marks| - 1])] == marks[..|marks| - Trailing(marks)];
    } else {
      assert marks[..|marks|] == marks;
    }
  }

  lemma {:induction false} TrailingAppend(a: seq<Mark>, b: seq<Mark>)
    ensures Trailing(a + b) == if Trailing(b) == |b| then Trailing(a) + |b| else Trailing(b)
  {
    if b == [] {
      assert a + b == a;
    } else {
      assert (a + b)[..|a + b| - 1] == a + b[..|b| - 1];
      TrailingAppend(a, b[..|b| - 1]);
    }
  }

  lemma TrailingOne(m: Mark)
    ensures Trailing([m]) == (if m == Gap then 1 else 0) && Trailing([]) == 0
  {
    assert [m][..0] == [];
  }

  lemma {:induction false} BlankMarks(s: string, level: nat)
    ensures if AllBlank(s) then Trailing(Marks(s, level)) == |Marks(s, level)| == |s| else Trailing(Marks(s, level)) < |Marks(s, level)|
    decreases |s|
  {
    hide Marks, FirstBlank;
    if s == "" {
      NoMarks(level);
    } else if s[0] == ' ' {
      MarksStep(s, level);
      BlankMarks(s[1..], level);
      TrailingOne(Gap);
      TrailingAppend([Gap], Marks(s[1..], level));
      assert AllBlank(s) <==> AllBlank(s[1..]) by { BlankTail(s); }
    } else {
      MarksStep(s, level);
      var n := FirstBlank(s);
      TrailingOne(Text(s[..n], level));
      TrailingAppend([Text(s[..n], level)], Marks(s[n..], level));
    }
  }

  lemma BlankTail(s: string)
    requires s != "" && s[0] == ' '
    ensures AllBlank(s) <==> AllBlank(s[1..])
  {
    if AllBlank(s[1..]) {
      forall k | 0 <= k < |s| ensures s[k] == ' ' { if k > 0 { assert s[1..][k - 1] == ' '; } }
    }
  }

  // The blanks waiting after a text are those at its end.
  lemma {:induction false} FillSpaces(y: Layout, f: Fill, ql: nat, s: string, seen: bool, last: char, level: nat)
    ensures FillText(y, f, ql, s, seen, last).spaces == if AllBlank(s) then f.spaces + |s| + 1 else Trailing(Marks(s, level))
    decreases |s|
  {
    hide Marks, FirstBlank, QuoteWidth, IndentCols, Cols, Overflows, FillText;
    FillStep(y, f, ql, s, seen, last);
    var n := FirstBlank(s);
    BlankFirst(s);
    if s == "" {
    } else if n == 0 {
      MarksStep(s, level);
      FillSpaces(y, Fill(f.width, f.spaces + 1), ql, s[1..], seen, last, level);
      BlankTail(s);
      BlankMarks(s[1..], level);
      TrailingAppend([Gap], Marks(s[1..], level));
    } else {
      MarksStep(s, level);
      var g := FillWord(y, f, ql, Cols(y.cw, s[..n]), seen, last);
      TrailingOne(Text(s[..n], level));
      TrailingAppend([Text(s[..n], level)], Marks(s[n..], level));
      if n == |s| {
        NoMarks(level);
      } else {
        FillSpaces(y, g, ql, s[n + 1..], true, last, level);
        MarksStep(s[n..], level);
        assert s[n..][1..] == s[n + 1..];
        BlankMarks(s[n + 1..], level);
        TrailingOne(Gap);
        TrailingAppend([Gap], Marks(s[n + 1..], level));
      }
    }
  }

  lemma BlankFirst(s: string)
    ensures s != "" ==> (FirstBlank(s) == 0 <==> s[0] == ' ')
    ensures FirstBlank("") == 0
  {
  }

  lemma FillStep(y: Layout, f: Fill, ql: nat, s: string, seen: bool, last: char)
    ensures var n := FirstBlank(s);
      var g := if n == 0 then Fill(f.width, f.spaces + 1) else FillWord(y, f, ql, Cols(y.cw, s[..n]), seen, last);
      FillText(y, f, ql, s, seen, last) == if n == |s| then g else FillText(y, g, ql, s[n + 1..], seen || n > 0, last)
  {
  }

  // Without a word, no line gets wider.
  lemma {:induction false} FillBlank(y: Layout, f: Fill, ql: nat, s: string, seen: bool, last: char)
    requires AllBlank(s)
    ensures FillText(y, f, ql, s, seen, last).width == f.width
    decreases |s|
  {
    hide FillText, FirstBlank;
    BlankFirst(s);
    FillStep(y, f, ql, s, seen, last);
    if s != "" { FillBlank(y, Fill(f.width, f.spaces + 1), ql, s[1..], seen, last); }
  }

  // --- what comes out against what the text says ---

  // What comes out (r) is what the text says (s), or shorter; and as many blanks wait.
  ghost predicate Trails(r: Reading, s: Reading, f: Fill, same: bool) {
    && r.level == s.level && (r.open <==> f.width > 0) && (r.open ==> s.open)
    && Trailing(r.marks) == Trailing(s.marks) == f.spaces
    && if same then r.marks == s.marks else |r.marks| < |s.marks|
  }

  lemma EndedSize(r: Reading)
    ensures |Ended(r).marks| == |r.marks| - Trailing(r.marks) + (if r.open then 1 else 0) && Trailing(Ended(r).marks) == 0
    ensures Ended(r).marks == r.marks[..|r.marks| - Trailing(r.marks)] + if r.open then [Break] else []
  {
    TrailingIs(r.marks);
    TrailingOne(Break);
    TrailingAppend(Stripped(r.marks), if r.open then [Break] else []);
    hide Stripped;
    assert Stripped(r.marks) + [] == Stripped(r.marks);
  }

  lemma TrailsLevelled(r: Reading, s: Reading, f: Fill, same: bool, line: string)
    requires Trails(r, s, f, same)
    ensures Trails(Levelled(r, line).(level := QuoteLevel(line)), Levelled(s, line).(level := QuoteLevel(line)), FillLevelled(f, s.level, line),
                   same && !(QuoteLevel(line) != s.level && s.open && f.width == 0))
  {
    hide QuoteLevel, Ended;
    EndedSize(r);
    EndedSize(s);
    assert Ended(r).open == Ended(s).open == false && Ended(r).level == r.level by { EndedClosed(r); EndedClosed(s); }
  }

  lemma EndedClosed(r: Reading)
    ensures !Ended(r).open && Ended(r).level == r.level
  {
  }

  // A line whose level has been seen to.
  ghost function ReadBody(r: Reading, line: string, delsp: bool, open: bool): Reading {
    var l, body, text := QuoteLevel(line), Unstuffed(line), FlowedText(line, delsp);
    if StandsAlone(r.open, line) then Reading(Ended(r).marks + Marks(body, l) + [Break], false, l)
    else if text == "" then Reading(Ended(r).marks + [Break], false, l)
    else
      var r2 := Reading(r.marks + LineMarks(text, l), open, l);
      if FixedLine(line) then Ended(r2) else r2
  }

  ghost function FillBody(y: Layout, f: Fill, line: string): Fill {
    if StandsAlone(f.width > 0, line) || FlowedText(line, y.delsp) == "" || FixedLine(line) then Fill(0, 0) else TextFill(y, f, line)
  }

  ghost predicate LosesBody(y: Layout, f: Fill, open: bool, line: string) {
    open &&
    if FlowedText(line, y.delsp) == "" || StandsAlone(true, line) then f.width == 0
    else FixedLine(line) && if f.width == 0 then f.spaces > 0 else TextFill(y, f, line).width == 0
  }

  // Marks at the end, and a break.
  lemma ClosedSize(a: Reading, m: seq<Mark>)
    ensures |Ended(a).marks + m + [Break]| == |a.marks| - Trailing(a.marks) + (if a.open then 1 else 0) + |m| + 1
    ensures Trailing(Ended(a).marks + m + [Break]) == 0
  {
    hide Ended;
    EndedSize(a);
    TrailingOne(Break);
    TrailingAppend(Ended(a).marks + m, [Break]);
  }

  lemma TrailsAlone(y: Layout, r: Reading, s: Reading, f: Fill, same: bool, line: string, ro: bool, so: bool)
    requires Trails(r, s, f, same) && (StandsAlone(s.open, line) || (FlowedText(line, y.delsp) == "" && !StandsAlone(r.open, line)))
    ensures Trails(ReadBody(r, line, y.delsp, ro), ReadBody(s, line, y.delsp, so), FillBody(y, f, line), same && !LosesBody(y, f, s.open, line))
  {
    hide QuoteLevel, Unstuffed, FixedLine, FlowedText, Marks, Ended, Trailing, TextFill;
    EndedSize(r);
    EndedSize(s);
    ClosedSize(r, Marks(Unstuffed(line), QuoteLevel(line)));
    ClosedSize(s, Marks(Unstuffed(line), QuoteLevel(line)));
    ClosedSize(r, []);
    ClosedSize(s, []);
    assert Ended(r).marks + [] + [Break] == Ended(r).marks + [Break] && Ended(s).marks + [] + [Break] == Ended(s).marks + [Break];
  }

  // A fixed line that ought to end the paragraph stands alone.
  lemma TrailsApart(y: Layout, r: Reading, s: Reading, f: Fill, same: bool, line: string, ro: bool)
    requires Trails(r, s, f, same) && !StandsAlone(s.open, line) && StandsAlone(r.open, line)
    ensures Trails(ReadBody(r, line, y.delsp, ro), ReadBody(s, line, y.delsp, true), FillBody(y, f, line), same && !LosesBody(y, f, s.open, line))
  {
    hide QuoteLevel, Marks, Ended, Trailing, TextFill, Unstuffed;
    var body, l := Unstuffed(line), QuoteLevel(line);
    EndedSize(r);
    EndedSize(s);
    ClosedSize(r, Marks(body, l));
    if body == "" {
      NoMarks(l);
      ClosedSize(s, []);
      assert Ended(s).marks + [] + [Break] == Ended(s).marks + [Break] && Ended(r).marks + [] + [Break] == Ended(r).marks + [Break];
    } else {
      FixedMarks(body, l);
      var s2 := Reading(s.marks + Marks(body, l), true, l);
      TrailingAppend(s.marks, Marks(body, l));
      EndedSize(s2);
      EndedClosed(s2);
      assert LineMarks(body, l) == Marks(body, l);
    }
  }

  // A text that ends in a word.
  lemma FixedMarks(s: string, level: nat)
    requires s != "" && s[|s| - 1] != ' '
    ensures !AllBlank(s) && Marks(s, level) != [] && Trailing(Marks(s, level)) == 0
  {
    EndsInText(s, level);
  }

  lemma {:induction false} EndsInText(s: string, level: nat)
    requires s != "" && s[|s| - 1] != ' '
    ensures Marks(s, level) != [] && Trailing(Marks(s, level)) == 0
    decreases |s|
  {
    hide Marks, FirstBlank;
    MarksStep(s, level);
    if s[0] == ' ' {
      EndsInText(s[1..], level);
      TrailingAppend([Gap], Marks(s[1..], level));
    } else {
      var n := FirstBlank(s);
      TrailingOne(Text(s[..n], level));
      TrailingAppend([Text(s[..n], level)], Marks(s[n..], level));
      if n == |s| {
        NoMarks(level);
      } else {
        EndsInText(s[n..], level);
      }
    }
  }

  lemma TrailsText(y: Layout, r: Reading, s: Reading, f: Fill, same: bool, line: string)
    requires Trails(r, s, f, same) && !StandsAlone(r.open, line) && !StandsAlone(s.open, line) && FlowedText(line, y.delsp) != ""
    ensures Trails(ReadBody(r, line, y.delsp, TextFill(y, f, line).width > 0),
                   ReadBody(s, line, y.delsp, s.open || !AllBlank(FlowedText(line, y.delsp))),
                   FillBody(y, f, line), same && !LosesBody(y, f, s.open, line))
  {
    hide QuoteLevel, Marks, Ended, Trailing, FillText, Unstuffed, FixedLine, FlowedText;
    var text, l := FlowedText(line, y.delsp), QuoteLevel(line);
    var last := text[|text| - 1];
    TextTrailing(y, f, l, text, last, r.marks);
    TextTrailing(y, f, l, text, last, s.marks);
    var g := FillText(y, f, l, text, false, last);
    var so := s.open || !AllBlank(text);
    if AllBlank(text) { FillBlank(y, f, l, text, false, last); }
    if FixedLine(line) {
      var r2, s2 := Reading(r.marks + LineMarks(text, l), g.width > 0, l), Reading(s.marks + LineMarks(text, l), so, l);
      EndedSize(r2);
      EndedSize(s2);
      EndedClosed(r2);
      EndedClosed(s2);
      FixedText(line, y.delsp);
    }
  }

  lemma FixedText(line: string, delsp: bool)
    requires FixedLine(line) && !StandsAlone(true, line) && FlowedText(line, delsp) != ""
    ensures !AllBlank(FlowedText(line, delsp))
  {
    hide QuoteLevel, Unstuffed;
    var body := Unstuffed(line);
    assert body[|body| - 1] != ' ';
  }

  lemma TextTrailing(y: Layout, f: Fill, l: nat, text: string, last: char, m: seq<Mark>)
    requires Trailing(m) == f.spaces && text != ""
    ensures Trailing(m + LineMarks(text, l)) == FillText(y, f, l, text, false, last).spaces
  {
    hide Marks, FillText;
    FillSpaces(y, f, l, text, false, last, l);
    BlankMarks(text, l);
    TrailingAppend(m, Marks(text, l));
    if AllBlank(text) {
      TrailingOne(Gap);
      TrailingAppend(m + Marks(text, l), [Gap]);
      assert m + LineMarks(text, l) == m + Marks(text, l) + [Gap];
    } else {
      assert m + LineMarks(text, l) == m + Marks(text, l);
    }
  }

  lemma TrailsStep(y: Layout, r: Reading, s: Reading, f: Fill, same: bool, line: string)
    requires Trails(r, s, f, same)
    ensures Trails(ReadLine(r, line, y.delsp, LineOpen(y, f, s.level, line)),
                   ReadLine(s, line, y.delsp, Levelled(s, line).open || !AllBlank(FlowedText(line, y.delsp))),
                   FillLine(y, f, s.level, line), same && !Loses(y, f, s.open, s.level, line))
  {
    var l := QuoteLevel(line);
    TrailsLevelled(r, s, f, same, line);
    var r1, s1, f1 := Levelled(r, line).(level := l), Levelled(s, line).(level := l), FillLevelled(f, s.level, line);
    var same1 := same && !(l != s.level && s.open && f.width == 0);
    BodyIs(y, r, s, f, line);
    hide QuoteLevel, Levelled, FillLevelled, Unstuffed, FixedLine, FlowedText, ReadBody, ReadLine, FillBody, FillLine, LosesBody, Loses, TextFill, LineOpen;
    var ro, so := TextFill(y, f1, line).width > 0, s1.open || !AllBlank(FlowedText(line, y.delsp));
    if StandsAlone(s1.open, line) || (FlowedText(line, y.delsp) == "" && !StandsAlone(r1.open, line)) {
      TrailsAlone(y, r1, s1, f1, same1, line, ro, so);
    } else if StandsAlone(r1.open, line) {
      assert s1.open;
      TrailsApart(y, r1, s1, f1, same1, line, ro);
    } else {
      TrailsText(y, r1, s1, f1, same1, line);
    }
  }

  lemma BodyIs(y: Layout, r: Reading, s: Reading, f: Fill, line: string)
    requires r.level == s.level && (r.open <==> f.width > 0) && (r.open ==> s.open)
    ensures var l := QuoteLevel(line);
      var r1, s1, f1 := Levelled(r, line).(level := l), Levelled(s, line).(level := l), FillLevelled(f, s.level, line);
      && LineOpen(y, f, s.level, line) == (TextFill(y, f1, line).width > 0)
      && (forall o :: ReadLine(r, line, y.delsp, o) == ReadBody(r1, line, y.delsp, o))
      && (forall o :: ReadLine(s, line, y.delsp, o) == ReadBody(s1, line, y.delsp, o))
      && FillLine(y, f, s.level, line) == FillBody(y, f1, line)
      && (Loses(y, f, s.open, s.level, line) <==> (l != s.level && s.open && f.width == 0) || LosesBody(y, f1, s1.open, line))
  {
    hide QuoteLevel, Unstuffed, FixedLine, FlowedText, Marks, Stripped, TextFill;
  }

  // What comes out is what the text says exactly if no line loses anything and the last paragraph,
  // if one is open, has a width.
  lemma ReadRightIff(y: Layout, lines: seq<string>)
    ensures Ended(Shown(y, lines)).marks == Ended(ReadLines(lines, y.delsp)).marks <==>
              LosesNone(y, lines) && (ReadLines(lines, y.delsp).open ==> Fills(y, lines).width > 0)
  {
    var r, s := Shown(y, lines), ReadLines(lines, y.delsp);
    TrailsAll(y, lines);
    EndedSize(r);
    EndedSize(s);
    hide Ended;
  }

  lemma {:induction false} TrailsAll(y: Layout, lines: seq<string>)
    ensures Trails(Shown(y, lines), ReadLines(lines, y.delsp), Fills(y, lines), LosesNone(y, lines))
    ensures ReadLines(lines, y.delsp).level == LevelOf(lines)
  {
    hide Trails, ReadLine, FillLine, LineOpen, Loses, Levelled, FlowedText;
    ShownOpen(y, lines);
    if lines == [] {
      TrailsNone(y);
    } else {
      var front := lines[..|lines| - 1];
      TrailsAll(y, front);
      TrailsStep(y, Shown(y, front), ReadLines(front, y.delsp), Fills(y, front), LosesNone(y, front), lines[|lines| - 1]);
    }
    TrailsLevel(Shown(y, lines), ReadLines(lines, y.delsp), Fills(y, lines), LosesNone(y, lines));
  }

  lemma TrailsNone(y: Layout)
    ensures Trails(Reading([], false, 0), Reading([], false, 0), Fill(0, 0), true)
  {
  }

  lemma TrailsLevel(r: Reading, s: Reading, f: Fill, same: bool)
    requires Trails(r, s, f, same)
    ensures r.level == s.level
  {
  }

  // A word that cannot be seen, without an indent, and a quoted line: no break comes out between them.
  lemma UnseenWord(y: Layout, z: string)
    requires z != "" && z != "--" && z[0] != '>' && (forall k :: 0 <= k < |z| ==> z[k] != ' ') && !y.delsp
    requires Cols(y.cw, z) == 0 && IndentCols(y, 0) == 0
    ensures Ended(ReadLines([z + " ", ">b"], false)).marks == [Text(z, 0), Break, Text("b", 1), Break]
    ensures Ended(Shown(y, [z + " ", ">b"])).marks == [Text(z, 0), Text("b", 1), Break]
  {
    hide *;
    var a, b := z + " ", ">b";
    UnseenText(z);
    UnseenFirst(y, z);
    var r := Reading([Text(z, 0), Gap], false, 0);
    ShownMore(y, [a], b);
    ReadMore([a], b);
    assert [a] + [b] == [a, b];
    UnseenSecond(r, LineOpen(y, Fills(y, [a]), LevelOf([a]), b));
    UnseenSecond(r.(open := true), Levelled(r.(open := true), b).open || !AllBlank(FlowedText(b, false)));
    StrippedWord(z);
  }

  lemma ReadMore(lines: seq<string>, line: string)
    ensures var r := ReadLines(lines, false);
      ReadLines(lines + [line], false) == ReadLine(r, line, false, Levelled(r, line).open || !AllBlank(FlowedText(line, false)))
  {
    hide ReadLine, Levelled, FlowedText;
    assert (lines + [line])[..|lines|] == lines;
  }

  lemma StrippedWord(z: string)
    ensures Stripped([Text(z, 0), Gap]) == [Text(z, 0)]
  {
    assert [Text(z, 0), Gap][..1] == [Text(z, 0)];
  }

  lemma UnseenFirst(y: Layout, z: string)
    requires z != "" && z != "--" && z[0] != '>' && (forall k :: 0 <= k < |z| ==> z[k] != ' ') && !y.delsp
    requires Cols(y.cw, z) == 0 && IndentCols(y, 0) == 0
    ensures var r := Reading([Text(z, 0), Gap], false, 0);
      Shown(y, [z + " "]) == r && ReadLines([z + " "], false) == r.(open := true)
  {
    hide Cols, IndentCols, Marks, QuoteLevel, Unstuffed, FixedLine, FlowedText, LineMarks, FillText, FillWord, Stripped;
    var a := z + " ";
    UnseenText(z);
    UnseenFill(y, z);
    ShownMore(y, [], a);
    ReadMore([], a);
    assert [] + [a] == [a] && [] + [Text(z, 0), Gap] == [Text(z, 0), Gap];
  }

  // A quoted line after r.
  lemma UnseenSecond(r: Reading, o: bool)
    requires r.level == 0
    ensures Ended(ReadLine(r, ">b", false, o)).marks == Stripped(r.marks) + (if r.open then [Break] else []) + [Text("b", 1), Break]
  {
    UnseenText("a");
    var m := Ended(r).marks;
    TrailingOne(Break);
    TrailingAppend(m + [Text("b", 1)], [Break]);
    hide QuoteLevel, Unstuffed, FixedLine, FlowedText, Marks, Stripped, Trailing;
    EndedIs(m + [Text("b", 1)] + [Break], 1);
    EndedSize(r);
    EndedIs(m, 0);
    assert m + [Text("b", 1)] + [Break] == m + [Text("b", 1), Break];
  }

  lemma EndedIs(marks: seq<Mark>, l: nat)
    requires Trailing(marks) == 0
    ensures Ended(Reading(marks, false, l)).marks == marks && Stripped(marks) == marks
  {
    TrailingIs(marks);
    assert marks[..|marks|] == marks && marks + [] == marks;
  }

  lemma UnseenText(z: string)
    requires z != "" && z != "--" && z[0] != '>' && forall k :: 0 <= k < |z| ==> z[k] != ' '
    ensures var a := z + " ";
      QuoteLevel(a) == 0 && Unstuffed(a) == a && a != "-- " && !FixedLine(a) && FlowedText(a, false) == a
      && LineMarks(a, 0) == [Text(z, 0), Gap] && !AllBlank(a) && a[|a| - 1] == ' '
    ensures QuoteLevel(">b") == 1 && Unstuffed(">b") == "b" && FixedLine(">b") && FlowedText(">b", false) == "b" && Marks("b", 1) == [Text("b", 1)]
  {
    var a := z + " ";
    assert a[0] == z[0] && QuoteLevel(a) == 0 && a[0..] == a;
    assert a[..|a| - 1] == z && a[|a| - 1] == ' ' && "-- "[..2] == "--";
    assert ">b"[1..] == "b" && QuoteLevel(">b") == 1;
    hide Marks;
    MarksOne(z, 0);
    MarksOne("b", 1);
    MarksAppend(z, " ", 0);
  }

  lemma UnseenFill(y: Layout, z: string)
    requires z != "" && (forall k :: 0 <= k < |z| ==> z[k] != ' ') && Cols(y.cw, z) == 0 && IndentCols(y, 0) == 0
    ensures FillText(y, Fill(0, 0), 0, z + " ", false, ' ').width == 0
  {
    hide Cols, IndentCols, FillText, FirstBlank, QuoteWidth;
    var a := z + " ";
    FirstBlankIs(a, |z|);
    assert a[..|z|] == z && a[|z| + 1..] == "";
    FillStep(y, Fill(0, 0), 0, a, false, ' ');
    FillStep(y, Fill(0, 0), 0, "", true, ' ');
    BlankFirst("");
  }

  // --- when that is so ---

  // The text from i to j is a word.
  ghost predicate WordAt(text: string, i: nat, j: nat) {
    && i < j <= |text| && (i > 0 ==> text[i - 1] == ' ') && (j < |text| ==> text[j] == ' ')
    && forall k :: i <= k < j ==> text[k] != ' '
  }

  // Every word of the text takes up some room.
  ghost predicate Visible(cw: char -> nat, text: string) {
    forall i: nat, j: nat :: WordAt(text, i, j) ==> Cols(cw, text[i..j]) >= 1
  }

  // Every word of the line can be seen, or the indent of its level can.
  ghost predicate Shows(y: Layout, line: string) {
    Visible(y.cw, FlowedText(line, y.delsp)) || IndentCols(y, QuoteLevel(line)) > 0
  }

  lemma VisibleRest(cw: char -> nat, s: string, n: nat)
    requires Visible(cw, s) && n < |s| && s[n] == ' '
    ensures Visible(cw, s[n + 1..])
  {
    var t := s[n + 1..];
    forall i: nat, j: nat | WordAt(t, i, j) ensures Cols(cw, t[i..j]) >= 1 {
      var a, b := i + n + 1, j + n + 1;
      assert s[a..b] == t[i..j];
      assert forall k :: i <= k < j ==> t[k] == s[k + n + 1];
      assert i > 0 ==> t[i - 1] == s[a - 1];
      assert forall k :: a <= k < b ==> s[k] == t[k - n - 1];
      assert WordAt(s, a, b);
    }
  }

  // A text that shows makes the line as wide as it should.
  lemma {:induction false} FillSeen(y: Layout, f: Fill, ql: nat, s: string, seen: bool, last: char)
    requires Visible(y.cw, s) || IndentCols(y, ql) > 0
    requires seen ==> f.width > 0
    ensures FillText(y, f, ql, s, seen, last).width > 0 <==> f.width > 0 || !AllBlank(s)
    decreases |s|
  {
    hide FillText, FirstBlank, Visible, IndentCols, Cols, QuoteWidth, Overflows;
    BlankFirst(s);
    FillStep(y, f, ql, s, seen, last);
    var n := FirstBlank(s);
    if s == "" {
    } else if n == 0 {
      BlankTail(s);
      if Visible(y.cw, s) { VisibleRest(y.cw, s, 0); }
      FillSeen(y, Fill(f.width, f.spaces + 1), ql, s[1..], seen, last);
    } else {
      var g := FillWord(y, f, ql, Cols(y.cw, s[..n]), seen, last);
      if Visible(y.cw, s) { FirstVisible(y.cw, s); }
      assert g.width > 0;
      if n < |s| {
        BlankAt(s);
        if Visible(y.cw, s) { VisibleRest(y.cw, s, n); }
        FillSeen(y, g, ql, s[n + 1..], true, last);
      }
    }
  }

  lemma BlankAt(s: string)
    ensures FirstBlank(s) < |s| ==> s[FirstBlank(s)] == ' '
  {
  }

  lemma FirstVisible(cw: char -> nat, s: string)
    requires Visible(cw, s) && FirstBlank(s) > 0
    ensures Cols(cw, s[..FirstBlank(s)]) >= 1
  {
    var n := FirstBlank(s);
    assert WordAt(s, 0, n) && s[0..n] == s[..n];
  }

  // If every line shows, what comes out is what the text says.
  lemma {:induction false} ReadsRight(y: Layout, lines: seq<string>)
    requires forall line :: line in lines ==> Shows(y, line)
    ensures Shown(y, lines) == ReadLines(lines, y.delsp)
    decreases |lines|
  {
    hide ReadLine, FillText, Shows, FixedLine, Unstuffed, FlowedText, QuoteLevel;
    if lines != [] {
      var front, line := lines[..|lines| - 1], lines[|lines| - 1];
      assert forall x :: x in front ==> x in lines;
      ReadsRight(y, front);
      ShownOpen(y, front);
      assert line in lines;
      LineSeen(y, Shown(y, front), Fills(y, front), line);
    }
  }

  lemma LineSeen(y: Layout, r: Reading, f: Fill, line: string)
    requires Shows(y, line) && r.open == (f.width > 0)
    ensures var o := Levelled(r, line).open || !AllBlank(FlowedText(line, y.delsp));
      ReadLine(r, line, y.delsp, LineOpen(y, f, r.level, line)) == ReadLine(r, line, y.delsp, o)
  {
    hide FillText, FixedLine, Unstuffed, FlowedText, QuoteLevel, Marks, Stripped, Visible, IndentCols;
    var text := FlowedText(line, y.delsp);
    if text != "" { FillSeen(y, FillLevelled(f, r.level, line), QuoteLevel(line), text, false, text[|text| - 1]); }
  }
}
