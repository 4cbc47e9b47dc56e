// rfc3676.c: text/plain; format=flowed (RFC 3676, section 4) is taken apart into words and
// wrapped again.
module Flowed {
  import opened Wrappers
  import opened FlowedReading

  // --- the output ---

  // What is written, by its purpose: an indent of quote marks; a blank; a word; a whole fixed line; a
  // line break, which is soft if it only wraps the text, and then stands for so many blanks.
  datatype Piece =
    | Indent(text: string, level: nat)
    | Blank
    | Word(text: string, level: nat)
    | Fixed(text: string, level: nat)
    | Newline(soft: Option<nat>)

  function PieceText(p: Piece): string {
    match p
    case Indent(t, _) => t
    case Blank => " "
    case Word(t, _) => t
    case Fixed(t, _) => t
    case Newline(_) => "\n"
  }

  ghost function LineCols(cw: char -> nat, line: seq<Piece>): nat {
    if line == [] then 0 else LineCols(cw, line[..|line| - 1]) + Cols(cw, PieceText(line[|line| - 1]))
  }

  lemma LineColsSnoc(cw: char -> nat, line: seq<Piece>, p: Piece)
    ensures LineCols(cw, line + [p]) == LineCols(cw, line) + Cols(cw, PieceText(p))
  {
    assert (line + [p])[..|line|] == line;
  }

  // The pieces after the last line break.
  ghost function OpenLine(out: seq<Piece>): (line: seq<Piece>)
  {
    if out == [] || out[|out| - 1].Newline? then [] else OpenLine(out[..|out| - 1]) + [out[|out| - 1]]
  }

  lemma OpenLineSnoc(out: seq<Piece>, p: Piece)
    ensures OpenLine(out + [p]) == if p.Newline? then [] else OpenLine(out) + [p]
  {
    assert (out + [p])[..|out|] == out;
  }

  // --- the lines ---

  ghost predicate HasWord(line: seq<Piece>) {
    exists i :: 0 <= i < |line| && line[i].Word?
  }

  ghost predicate EndsInWord(line: seq<Piece>) {
    line != [] && line[|line| - 1].Word?
  }

  // Every word but the first ends within the width for its quote level, unless it is as wide as that
  // itself, or follows a word without a blank.
  ghost predicate Fits(y: Layout, line: seq<Piece>) {
    line == [] ||
    var front, p := line[..|line| - 1], line[|line| - 1];
    Fits(y, front) && (p.Word? ==> WordFits(y, front, p))
  }

  ghost predicate WordFits(y: Layout, front: seq<Piece>, w: Piece)
    requires w.Word?
  {
    || !HasWord(front) || EndsInWord(front) || Cols(y.cw, w.text) >= QuoteWidth(y.c, w.level)
    || LineCols(y.cw, front) + Cols(y.cw, w.text) <= QuoteWidth(y.c, w.level)
  }

  // Words and fixed text stand behind one indent, that of their quote level; a word follows a word
  // without a blank only under DelSp=yes.
  ghost predicate Shaped(y: Layout, line: seq<Piece>) {
    line == [] ||
    var front, p := line[..|line| - 1], line[|line| - 1];
    match p
    case Blank => Shaped(y, front)
    case Indent(t, l) => front == [] && (t == IndentText(y.c, l, false) || t == IndentText(y.c, l, AddQuoteSuffix(y.c, l)))
    case Word(_, l) => Shaped(y, front) && Behind(y.c, front, l) && (EndsInWord(front) ==> y.delsp)
    case Fixed(_, l) => Shaped(y, front) && Behind(y.c, front, l)
    case Newline(_) => false
  }

  ghost predicate Behind(c: Config, line: seq<Piece>, level: nat) {
    line != [] && line[0] == Indent(IndentText(c, level, AddQuoteSuffix(c, level)), level)
  }

  ghost predicate GoodLine(y: Layout, line: seq<Piece>) {
    Fits(y, line) && Shaped(y, line)
  }

  ghost predicate ClosedGood(y: Layout, out: seq<Piece>) {
    out != [] ==>
      ClosedGood(y, out[..|out| - 1]) && (out[|out| - 1].Newline? ==> GoodLine(y, OpenLine(out[..|out| - 1])))
  }

  // Every line of the output fits and is well shaped.
  ghost predicate AllGood(y: Layout, out: seq<Piece>) {
    ClosedGood(y, out) && GoodLine(y, OpenLine(out))
  }

  ghost function Trim(line: seq<Piece>): seq<Piece> {
    if line != [] && line[|line| - 1] == Blank then Trim(line[..|line| - 1]) else line
  }

  // A line of several words at level l that has neither a word as wide as the line nor, if DelSp
  // joins words, two words without a blank between them: it fits, not counting trailing blanks.
  lemma {:induction false} LineFits(y: Layout, line: seq<Piece>, l: nat)
    requires GoodLine(y, line) && Behind(y.c, line, l)
    requires forall w :: w in line && w.Word? ==> Cols(y.cw, w.text) < QuoteWidth(y.c, w.level)
    requires y.delsp ==> forall i :: 0 < i < |line| && line[i].Word? ==> !line[i - 1].Word?
    ensures EndsInWord(Trim(line)) && HasWord(Trim(line)[..|Trim(line)| - 1]) ==> LineCols(y.cw, Trim(line)) <= QuoteWidth(y.c, l)
  {
    var front, p := line[..|line| - 1], line[|line| - 1];
    if p == Blank {
      if front != [] {
        assert forall w :: w in front ==> w in line;
        LineFits(y, front, l);
      }
    } else if p.Word? {
      assert p in line && p.level == l;
      assert front != [] ==> line[|front| - 1] == front[|front| - 1];
    }
  }

  // --- soft breaks ---

  ghost predicate EndsInBreak(out: seq<Piece>) {
    out != [] && out[|out| - 1].Newline? && out[|out| - 1].soft.Some?
  }

  // The output ends in a soft break and an indent.
  ghost predicate EndsInIndent(out: seq<Piece>) {
    out != [] && out[|out| - 1].Indent? && EndsInBreak(out[..|out| - 1])
  }

  // The word w is too wide for the open line, n blanks after it, but not for one of its own; and there
  // are blanks before the word, unless DelSp=yes has taken them.
  ghost predicate Due(y: Layout, out: seq<Piece>, n: nat, w: Piece) {
    && w.Word? && Cols(y.cw, w.text) < QuoteWidth(y.c, w.level)
    && LineCols(y.cw, OpenLine(out)) + n + Cols(y.cw, w.text) > QuoteWidth(y.c, w.level)
    && (n > 0 || EndsInBlank(OpenLine(out)) || y.delsp)
  }

  ghost predicate EndsInBlank(line: seq<Piece>) {
    line != [] && line[|line| - 1] == Blank
  }

  // If the output ends in a soft break, or in one and an indent, it is due to the word w.
  ghost predicate Awaits(y: Layout, out: seq<Piece>, w: Piece) {
    && (EndsInBreak(out) ==> Due(y, out[..|out| - 1], out[|out| - 1].soft.value, w))
    && (EndsInIndent(out) ==> Due(y, out[..|out| - 2], out[|out| - 2].soft.value, w))
  }

  // Every soft break is followed by an indent and a word that it is due to; blanks stay at the end of
  // the line before it only for $text_flowed, and all of them.
  ghost predicate Wraps(y: Layout, out: seq<Piece>) {
    out == [] ||
    var front, p := out[..|out| - 1], out[|out| - 1];
    && Wraps(y, front) && (EndsInBreak(front) ==> p.Indent?) && (EndsInIndent(front) ==> p.Word? && Awaits(y, front, p))
    && (p.Newline? && p.soft.Some? ==> if y.c.textFlowed then p.soft == Some(0) else !EndsInBlank(OpenLine(front)))
  }

  ghost predicate Complete(out: seq<Piece>) {
    !EndsInBreak(out) && !EndsInIndent(out)
  }

  lemma WrapsMore(y: Layout, out: seq<Piece>, p: Piece)
    requires Wraps(y, out)
    ensures Complete(out) && !(p.Newline? && p.soft.Some?) ==> Wraps(y, out + [p]) && Complete(out + [p])
    ensures p.Word? && !EndsInBreak(out) && Awaits(y, out, p) ==> Wraps(y, out + [p]) && Complete(out + [p])
  {
    hide Due, OpenLine;
    assert (out + [p])[..|out|] == out;
  }

  lemma WrapsBreak(y: Layout, out: seq<Piece>, n: nat, w: Piece)
    requires Wraps(y, out) && Complete(out) && Due(y, out, n, w)
    requires if y.c.textFlowed then n == 0 else !EndsInBlank(OpenLine(out))
    ensures var o := out + [Newline(Some(n))]; Wraps(y, o) && Awaits(y, o, w) && !EndsInIndent(o)
  {
    hide Due, OpenLine;
    var o := out + [Newline(Some(n))];
    assert o[..|out|] == out;
  }

  lemma WrapsIndent(y: Layout, out: seq<Piece>, p: Piece, w: Piece)
    requires Wraps(y, out) && Awaits(y, out, w) && !EndsInIndent(out) && p.Indent?
    ensures Wraps(y, out + [p]) && Awaits(y, out + [p], w) && !EndsInBreak(out + [p])
  {
    hide Due, OpenLine;
    var o := out + [p];
    assert o[..|out|] == out && (EndsInBreak(out) ==> o[..|o| - 2] == out[..|out| - 1]);
  }

  // Wherever a soft break stands, the next word does not fit on the line before it.
  lemma SoftBreaks(y: Layout, out: seq<Piece>, i: nat)
    requires Wraps(y, out) && Complete(out) && i < |out| && out[i].Newline? && out[i].soft.Some?
    ensures i + 2 < |out| && out[i + 1].Indent? && out[i + 2].Word? && Due(y, out[..i], out[i].soft.value, out[i + 2])
  {
    var n := |out|;
    hide Due;
    assert i != n - 1;
    assert n > 1 ==> out[..n - 1][n - 2] == out[n - 2];
    SoftBreak(y, out, i);
  }

  lemma {:induction false} SoftBreak(y: Layout, out: seq<Piece>, i: nat)
    requires Wraps(y, out) && i + 2 < |out| && out[i].Newline? && out[i].soft.Some?
    ensures out[i + 1].Indent? && out[i + 2].Word? && Due(y, out[..i], out[i].soft.value, out[i + 2])
    decreases |out|
  {
    hide Due;
    var front := out[..|out| - 1];
    if i + 3 < |out| {
      SoftBreak(y, front, i);
      assert front[..i] == out[..i];
    } else {
      var head := front[..|front| - 1];
      assert head[i] == out[i] && EndsInBreak(head);
      assert front[i + 1] == out[i + 1] && EndsInIndent(front);
      assert front[..|front| - 2] == out[..i];
    }
  }

  // --- the content ---

  // The words, blanks and hard breaks of the output.
  ghost function Content(out: seq<Piece>): seq<Mark> {
    if out == [] then []
    else Content(out[..|out| - 1]) + PieceMarks(out[|out| - 1])
  }

  ghost function PieceMarks(p: Piece): seq<Mark> {
    match p
    case Indent(_, _) => []
    case Blank => [Gap]
    case Word(t, l) => [Text(t, l)]
    case Fixed(t, l) => Marks(t, l)
    case Newline(soft) => if soft.Some? then Gaps(soft.value) else [Break]
  }

  lemma ContentSnoc(out: seq<Piece>, p: Piece)
    ensures Content(out + [p]) == Content(out) + PieceMarks(p)
  {
    assert (out + [p])[..|out|] == out;
  }

  // --- the state of a paragraph ---

  class Par {
    var width: nat
    var spaces: nat
    var delsp: bool
    var out: seq<Piece>

    constructor ()
      ensures width == 0 && spaces == 0 && !delsp && out == []
    {
      width, spaces, delsp, out := 0, 0, false, [];
    }
  }

  // The content with the blanks still to be printed.
  ghost function Now(par: Par): seq<Mark>
    reads par`out, par`spaces
  {
    Content(par.out) + Gaps(par.spaces)
  }

  ghost function FillOf(par: Par): Fill
    reads par`width, par`spaces
  {
    Fill(par.width, par.spaces)
  }

  // The width is that of the open line, which ends in a word if it is not empty; soft breaks are due.
  // If words can be seen (vis), every line is good, and the open one, if there is one, is of level ql.
  ghost predicate Valid(par: Par, y: Layout, vis: bool, ql: nat)
    reads par`width, par`out, par`delsp
  {
    && par.delsp == y.given && Stripped(Content(par.out)) == Content(par.out) && Wraps(y, par.out) && Complete(par.out)
    && par.width == LineCols(y.cw, OpenLine(par.out)) && (OpenLine(par.out) == [] || EndsInWord(OpenLine(par.out)))
    && (vis ==> AllGood(y, par.out) && if par.width == 0 then OpenLine(par.out) == [] else Behind(y.c, OpenLine(par.out), ql))
  }

  ghost predicate UnitBlanks(cw: char -> nat) {
    cw(' ') == 1 && cw('>') == 1
  }

  lemma NothingWritten(par: Par, y: Layout, vis: bool, ql: nat)
    requires par.width == 0 && par.spaces == 0 && par.out == [] && par.delsp == y.given
    ensures Valid(par, y, vis, ql) && Now(par) == [] && FillOf(par) == Fill(0, 0)
  {
  }

  // A line break: the open line, which is good, is closed.
  lemma NewlineOK(y: Layout, out: seq<Piece>, soft: Option<nat>)
    ensures AllGood(y, out) ==> AllGood(y, out + [Newline(soft)])
    ensures OpenLine(out + [Newline(soft)]) == [] && Content(out + [Newline(soft)]) == Content(out) + if soft.Some? then Gaps(soft.value) else [Break]
    ensures LineCols(y.cw, []) == 0
  {
    OpenLineSnoc(out, Newline(soft));
    ContentSnoc(out, Newline(soft));
    assert (out + [Newline(soft)])[..|out|] == out;
  }

  // Another piece on the open line.
  lemma PieceOK(y: Layout, out: seq<Piece>, p: Piece)
    requires !p.Newline?
    ensures OpenLine(out + [p]) == OpenLine(out) + [p] && Content(out + [p]) == Content(out) + PieceMarks(p)
    ensures LineCols(y.cw, OpenLine(out) + [p]) == LineCols(y.cw, OpenLine(out)) + Cols(y.cw, PieceText(p))
    ensures HasWord(OpenLine(out) + [p]) <==> HasWord(OpenLine(out)) || p.Word?
    ensures EndsInWord(OpenLine(out) + [p]) <==> p.Word?
    ensures AllGood(y, out) && GoodLine(y, OpenLine(out) + [p]) ==> AllGood(y, out + [p])
  {
    hide OpenLine, Content, LineCols, Cols, GoodLine, HasWord, PieceMarks, PieceText;
    OpenLineSnoc(out, p);
    ContentSnoc(out, p);
    HasWordSnoc(OpenLine(out), p);
    LineColsSnoc(y.cw, OpenLine(out), p);
    assert (out + [p])[..|out|] == out;
  }

  lemma LineSnoc(y: Layout, line: seq<Piece>, p: Piece)
    ensures p == Blank ==> (GoodLine(y, line + [p]) <==> GoodLine(y, line))
    ensures p.Word? ==>
      (GoodLine(y, line + [p]) <==> GoodLine(y, line) && WordFits(y, line, p) && Behind(y.c, line, p.level) && (EndsInWord(line) ==> y.delsp))
    ensures p.Fixed? ==> (GoodLine(y, line + [p]) <==> GoodLine(y, line) && Behind(y.c, line, p.level))
  {
    hide WordFits, Behind, EndsInWord, IndentText, AddQuoteSuffix;
    assert (line + [p])[..|line|] == line;
  }

  lemma IndentFirst(y: Layout, level: nat, suffix: bool)
    requires !suffix || AddQuoteSuffix(y.c, level)
    ensures GoodLine(y, [Indent(IndentText(y.c, level, suffix), level)])
    ensures suffix == AddQuoteSuffix(y.c, level) ==> Behind(y.c, [Indent(IndentText(y.c, level, suffix), level)], level)
  {
    hide IndentText, AddQuoteSuffix;
    var p := Indent(IndentText(y.c, level, suffix), level);
    assert [p][..0] == [] && [p][0] == p;
    if suffix { assert suffix == AddQuoteSuffix(y.c, level); } else { assert suffix == false; }
    assert Fits(y, [p]) && Shaped(y, [p]);
  }

  // A blank at the end makes no difference to whether the line is good.
  lemma BlankOK(y: Layout, out: seq<Piece>)
    ensures AllGood(y, out) ==> AllGood(y, out + [Blank])
    ensures OpenLine(out + [Blank]) == OpenLine(out) + [Blank] && Content(out + [Blank]) == Content(out) + [Gap]
    ensures HasWord(OpenLine(out) + [Blank]) == HasWord(OpenLine(out)) && !EndsInWord(OpenLine(out) + [Blank])
    ensures EndsInBlank(OpenLine(out) + [Blank])
    ensures LineCols(y.cw, OpenLine(out) + [Blank]) == LineCols(y.cw, OpenLine(out)) + Cols(y.cw, " ")
  {
    hide *;
    PieceOK(y, out, Blank);
    LineSnoc(y, OpenLine(out), Blank);
    PieceIs(Blank);
    AllGoodLine(y, out);
    BlankLast(OpenLine(out));
  }

  lemma BlankLast(line: seq<Piece>)
    ensures EndsInBlank(line + [Blank])
  {
  }

  lemma PieceIs(p: Piece)
    ensures p == Blank ==> PieceText(p) == " " && PieceMarks(p) == [Gap]
    ensures p.Indent? ==> PieceText(p) == p.text && PieceMarks(p) == []
    ensures p.Word? ==> PieceText(p) == p.text && PieceMarks(p) == [Text(p.text, p.level)]
    ensures p.Fixed? ==> PieceText(p) == p.text && PieceMarks(p) == Marks(p.text, p.level)
  {
  }

  lemma AllGoodLine(y: Layout, out: seq<Piece>)
    ensures AllGood(y, out) ==> GoodLine(y, OpenLine(out))
  {
  }

  lemma Wordless()
    ensures !HasWord([])
  {
  }

  lemma HasWordSnoc(line: seq<Piece>, p: Piece)
    ensures HasWord(line + [p]) <==> HasWord(line) || p.Word?
  {
    if HasWord(line) {
      var i :| 0 <= i < |line| && line[i].Word?;
      assert (line + [p])[i].Word?;
    }
    if p.Word? { assert (line + [p])[|line|].Word?; }
  }

  // An indent starts a line.
  lemma IndentOK(y: Layout, out: seq<Piece>, level: nat, suffix: bool)
    requires !suffix || AddQuoteSuffix(y.c, level)
    ensures var p := Indent(IndentText(y.c, level, suffix), level);
      && OpenLine(out + [p]) == OpenLine(out) + [p] && !EndsInWord(OpenLine(out + [p]))
      && LineCols(y.cw, OpenLine(out) + [p]) == LineCols(y.cw, OpenLine(out)) + Cols(y.cw, IndentText(y.c, level, suffix))
      && Content(out + [p]) == Content(out)
      && (AllGood(y, out) && OpenLine(out) == [] ==> AllGood(y, out + [p]) && !HasWord(OpenLine(out + [p])))
      && (OpenLine(out) == [] && suffix == AddQuoteSuffix(y.c, level) ==> Behind(y.c, OpenLine(out + [p]), level))
  {
    hide *;
    var p := Indent(IndentText(y.c, level, suffix), level);
    PieceOK(y, out, p);
    PieceIs(p);
    IndentFirst(y, level, suffix);
    Wordless();
    assert [] + [p] == [p];
  }

  // A word behind the indent.
  lemma WordOK(y: Layout, out: seq<Piece>, w: Piece)
    requires w.Word?
    ensures AllGood(y, out) && Behind(y.c, OpenLine(out), w.level) && WordFits(y, OpenLine(out), w) && (EndsInWord(OpenLine(out)) ==> y.delsp)
            ==> AllGood(y, out + [w])
    ensures OpenLine(out + [w]) == OpenLine(out) + [w] && EndsInWord(OpenLine(out + [w]))
    ensures Content(out + [w]) == Content(out) + [Text(w.text, w.level)]
    ensures LineCols(y.cw, OpenLine(out) + [w]) == LineCols(y.cw, OpenLine(out)) + Cols(y.cw, w.text)
    ensures Behind(y.c, OpenLine(out), w.level) ==> Behind(y.c, OpenLine(out + [w]), w.level)
  {
    hide *;
    PieceOK(y, out, w);
    PieceIs(w);
    LineSnoc(y, OpenLine(out), w);
    AllGoodLine(y, out);
    BehindMore(y.c, OpenLine(out), w, w.level);
  }

  // A fixed line behind its indent.
  lemma FixedOK(y: Layout, out: seq<Piece>, p: Piece)
    requires p.Fixed?
    ensures AllGood(y, out) && Behind(y.c, OpenLine(out), p.level) ==> AllGood(y, out + [p])
    ensures Content(out + [p]) == Content(out) + Marks(p.text, p.level)
  {
    hide *;
    PieceOK(y, out, p);
    PieceIs(p);
    LineSnoc(y, OpenLine(out), p);
    AllGoodLine(y, out);
  }

  // --- print_indent and flush_par ---

  lemma {:induction false} QuoteCols(c: Config, ql: nat, cw: char -> nat)
    requires UnitBlanks(cw)
    ensures Cols(cw, QuoteMarks(c, ql)) == if SpaceQuotes(c) then ql * 2 else ql
  {
    if ql > 0 {
      QuoteCols(c, ql - 1, cw);
      var m := QuoteMarks(c, ql - 1);
      var e := if SpaceQuotes(c) then " " else "";
      ColsAppend(cw, m + ">", e);
      ColsAppend(cw, m, ">");
      One(cw, '>');
      One(cw, ' ');
    }
  }

  // The number returned is the columns printed.
  method PrintIndent(par: Par, c: Config, ql0: nat, suffix: bool, ghost cw: char -> nat, prefixWidth: nat) returns (n: nat)
    requires UnitBlanks(cw) && prefixWidth == if c.prefix.Some? then Cols(cw, c.prefix.value) else 0
    modifies par`out
    ensures par.out == old(par.out) + [Indent(IndentText(c, ql0, suffix), ql0)] && n == Cols(cw, IndentText(c, ql0, suffix))
  {
    var wid, ql, text := 0, ql0, "";
    if c.prefix.Some? {
      if c.textFlowed {
        ql := ql + 1;
      } else {
        text := c.prefix.value;
        wid := prefixWidth;
      }
    }
    ghost var prefix := text;
    assert prefix + "" == prefix;
    for i := 0 to ql
      invariant text == prefix + QuoteMarks(c, i)
    {
      ghost var before := text;
      text := text + ">";
      if SpaceQuotes(c) {
        text := text + " ";
      }
      assert text == prefix + QuoteMarks(c, i + 1);
    }
    if suffix {
      text := text + " ";
    }
    par.out := par.out + [Indent(text, ql0)];
    IndentIs(c, ql0, suffix, cw, prefix);
    assert text == IndentText(c, ql0, suffix);
    n := (if SpaceQuotes(c) then ql * 2 else ql) + (if suffix then 1 else 0) + wid;
  }

  lemma IndentIs(c: Config, ql0: nat, suffix: bool, cw: char -> nat, prefix: string)
    requires UnitBlanks(cw) && prefix == if c.prefix.Some? && !c.textFlowed then c.prefix.value else ""
    ensures var ql := if c.prefix.Some? && c.textFlowed then ql0 + 1 else ql0;
      && IndentText(c, ql0, suffix) == prefix + QuoteMarks(c, ql) + (if suffix then " " else "")
      && Cols(cw, IndentText(c, ql0, suffix)) == (if SpaceQuotes(c) then ql * 2 else ql) + (if suffix then 1 else 0) + Cols(cw, prefix)
  {
    var ql := if c.prefix.Some? && c.textFlowed then ql0 + 1 else ql0;
    QuoteCols(c, ql, cw);
    ColsAppend(cw, prefix, QuoteMarks(c, ql));
    ColsAppend(cw, prefix + QuoteMarks(c, ql), if suffix then " " else "");
    One(cw, ' ');
  }

  method FlushPar(par: Par, ghost y: Layout, ghost vis: bool, ghost ql: nat, ghost newql: nat)
    requires Valid(par, y, vis, ql)
    modifies par`out, par`width, par`spaces
    ensures Valid(par, y, vis, newql) && FillOf(par) == Fill(0, 0)
    ensures Now(par) == Stripped(old(Now(par))) + if old(par.width) > 0 then [Break] else []
  {
    hide AllGood, OpenLine, LineCols, Content, Behind, Wraps, Stripped, Gaps;
    StrippedGaps(Content(par.out), par.spaces);
    NewlineOK(y, par.out, None);
    WrapsMore(y, par.out, Newline(None));
    BreakStripped(Content(par.out));
    if par.width > 0 {
      par.out := par.out + [Newline(None)];
      par.width := 0;
    }
    par.spaces := 0;
  }

  lemma BreakStripped(m: seq<Mark>)
    ensures Stripped(m + [Break]) == m + [Break] && Gaps(0) == [] && m + [] == m && m + [Break] + [] == m + [Break]
    ensures forall l, t :: Stripped(m + [Text(t, l)]) == m + [Text(t, l)]
  {
  }

  // The end of a line in print_flowed_line, due to the word w.
  method BreakLine(par: Par, y: Layout, ghost vis: bool, ghost ql: nat, ghost w: Piece)
    requires Valid(par, y, vis, ql) && UnitBlanks(y.cw) && Due(y, par.out, par.spaces, w) && (par.spaces > 0 || y.delsp)
    modifies par`out, par`width, par`spaces
    ensures FillOf(par) == Fill(0, 0) && Now(par) == old(Now(par)) && OpenLine(par.out) == [] && par.delsp == y.given
    ensures Wraps(y, par.out) && Awaits(y, par.out, w) && !EndsInIndent(par.out)
    ensures par.width == LineCols(y.cw, OpenLine(par.out)) && (vis ==> AllGood(y, par.out))
  {
    hide AllGood, OpenLine, LineCols, Content, Behind, Wraps, Awaits, Stripped, Complete, EndsInBreak, QuoteWidth, Cols, UnitBlanks, EndsInWord, EndsInBlank;
    OneBlank(y.cw);
    NotBlankEnd(OpenLine(par.out));
    ghost var n, now, width := par.spaces, Content(par.out) + Gaps(par.spaces), LineCols(y.cw, OpenLine(par.out));
    if y.c.textFlowed {
      while par.spaces > 0
        invariant (vis ==> AllGood(y, par.out)) && Content(par.out) + Gaps(par.spaces) == now
        invariant Wraps(y, par.out) && Complete(par.out) && par.spaces <= n
        invariant LineCols(y.cw, OpenLine(par.out)) + par.spaces == width + n
        invariant par.spaces < n ==> EndsInBlank(OpenLine(par.out))
        decreases par.spaces
      {
        BlankOK(y, par.out);
        WrapsMore(y, par.out, Blank);
        GapFirst(Content(par.out), par.spaces);
        par.out := par.out + [Blank];
        par.spaces := par.spaces - 1;
      }
    }
    NewlineOK(y, par.out, Some(par.spaces));
    WrapsBreak(y, par.out, par.spaces, w);
    GapFirst(now, 0);
    par.out := par.out + [Newline(Some(par.spaces))];
    par.width, par.spaces := 0, 0;
  }

  lemma NotBlankEnd(line: seq<Piece>)
    ensures line == [] || EndsInWord(line) ==> !EndsInBlank(line)
  {
  }

  lemma {:induction false} GapFirst(m: seq<Mark>, n: nat)
    ensures n > 0 ==> m + Gaps(n) == m + [Gap] + Gaps(n - 1)
    ensures m + Gaps(0) == m
  {
    if n > 1 {
      GapsAppend(1, n - 1);
      assert Gaps(1) == [Gap];
      assert m + Gaps(n) == m + ([Gap] + Gaps(n - 1)) == m + [Gap] + Gaps(n - 1);
    }
  }

  // The pending blanks, then the word.
  method PutWord(par: Par, y: Layout, ql: nat, word: string, w: nat, ghost vis: bool)
    requires UnitBlanks(y.cw) && word != "" && w == Cols(y.cw, word) && par.delsp == y.given
    requires par.width == LineCols(y.cw, OpenLine(par.out))
    requires vis ==> AllGood(y, par.out) && Behind(y.c, OpenLine(par.out), ql)
    requires vis ==>
      || w >= QuoteWidth(y.c, ql) || !HasWord(OpenLine(par.out)) || (par.spaces == 0 && EndsInWord(OpenLine(par.out)))
      || par.width + par.spaces + w <= QuoteWidth(y.c, ql)
    requires par.spaces > 0 || !EndsInWord(OpenLine(par.out)) || y.delsp
    requires vis ==> par.width + par.spaces + w > 0
    requires Wraps(y, par.out) && !EndsInBreak(par.out) && Awaits(y, par.out, Word(word, ql)) && (par.spaces > 0 ==> Complete(par.out))
    modifies par`out, par`width, par`spaces
    ensures Valid(par, y, vis, ql) && par.spaces == 0 && par.width == old(par.width) + old(par.spaces) + w
    ensures Now(par) == old(Now(par)) + [Text(word, ql)]
  {
    hide AllGood, OpenLine, Content, LineCols, Cols, IndentText, AddQuoteSuffix, QuoteWidth, HasWord, EndsInWord, Wraps, Awaits, EndsInBreak, Complete, Stripped, Gaps, EndsInBlank;
    ghost var total, line := par.width + par.spaces, OpenLine(par.out);
    par.width := par.width + (w + par.spaces);
    OneBlank(y.cw);
    ghost var n, now := par.spaces, Content(par.out) + Gaps(par.spaces);
    while par.spaces > 0
      invariant (vis ==> AllGood(y, par.out) && Behind(y.c, OpenLine(par.out), ql)) && Content(par.out) + Gaps(par.spaces) == now
      invariant LineCols(y.cw, OpenLine(par.out)) + par.spaces == total && par.width == total + w && par.spaces <= n
      invariant HasWord(OpenLine(par.out)) == HasWord(line)
      invariant if par.spaces < n then !EndsInWord(OpenLine(par.out)) else OpenLine(par.out) == line
      invariant Wraps(y, par.out) && !EndsInBreak(par.out) && Awaits(y, par.out, Word(word, ql)) && (n > 0 ==> Complete(par.out))
      decreases par.spaces
    {
      BlankOK(y, par.out);
      BehindMore(y.c, OpenLine(par.out), Blank, ql);
      WrapsMore(y, par.out, Blank);
      CompleteAwaits(y, par.out + [Blank], Word(word, ql));
      GapFirst(Content(par.out), par.spaces);
      par.out := par.out + [Blank];
      par.spaces := par.spaces - 1;
    }
    WordOK(y, par.out, Word(word, ql));
    WrapsMore(y, par.out, Word(word, ql));
    GapFirst(Content(par.out), 0);
    BreakStripped(Content(par.out));
    GapFirst(Content(par.out) + [Text(word, ql)], 0);
    par.out := par.out + [Word(word, ql)];
  }

  lemma CompleteAwaits(y: Layout, out: seq<Piece>, w: Piece)
    ensures Complete(out) ==> Awaits(y, out, w) && !EndsInBreak(out)
  {
  }

  lemma BehindMore(c: Config, line: seq<Piece>, p: Piece, ql: nat)
    ensures Behind(c, line, ql) ==> Behind(c, line + [p], ql)
  {
  }

  lemma OneBlank(cw: char -> nat)
    requires UnitBlanks(cw)
    ensures Cols(cw, " ") == 1
  {
    One(cw, ' ');
  }

  // --- print_flowed_line and print_fixed_line ---

  // mutt_str_sep(&line, " "): the text up to the next blank; next is -1 after the last piece.
  method NextWord(line: string, i: nat) returns (word: string, next: int)
    requires i <= |line|
    ensures i + |word| <= |line| && word == line[i..i + |word|] && |word| == FirstBlank(line[i..])
    ensures if i + |word| == |line| then next == -1 else next == i + |word| + 1 && line[i + |word|] == ' '
  {
    var j := i;
    while j < |line| && line[j] != ' '
      invariant i <= j <= |line| && forall k :: i <= k < j ==> line[k] != ' '
    {
      j := j + 1;
    }
    word := line[i..j];
    next := if j == |line| then -1 else j + 1;
    FirstBlankIs(line[i..], j - i);
  }

  // One word of a flowed line: where it goes.
  method PlaceWord(par: Par, y: Layout, ql: nat, word: string, last: char, words0: nat, width: nat, ghost vis: bool, w: nat, prefixWidth: nat)
      returns (words: nat)
    requires Valid(par, y, vis, ql) && UnitBlanks(y.cw) && word != "" && w == Cols(y.cw, word) && width == QuoteWidth(y.c, ql)
    requires prefixWidth == if y.c.prefix.Some? then Cols(y.cw, y.c.prefix.value) else 0
    requires words0 > 0 || par.spaces > 0 || par.width == 0 || y.delsp
    requires vis ==> (w > 0 || IndentCols(y, ql) > 0) && (words0 > 0 ==> par.width > 0)
    modifies par`out, par`width, par`spaces
    ensures Valid(par, y, vis, ql) && words > 0 && FillOf(par) == FillWord(y, old(FillOf(par)), ql, w, words0 > 0, last)
    ensures Now(par) == old(Now(par)) + (if words0 > 0 then [Gap] else []) + [Text(word, ql)]
    ensures vis ==> par.width > 0
  {
    hide AllGood, OpenLine, Content, LineCols, Cols, IndentText, AddQuoteSuffix, Behind, QuoteWidth, HasWord, EndsInWord, Wraps, Awaits, EndsInBreak, EndsInIndent, EndsInBlank, Stripped, Gaps;
    EmptyWordless();
    OneMore(Content(par.out), par.spaces);
    CompleteAwaits(y, par.out, Word(word, ql));
    words := words0;
    if words != 0 {
      par.spaces := par.spaces + 1;
    }
    var joined := par.spaces == 0 && par.delsp && last != ' ';
    if !joined && w < width && w + par.width + par.spaces > width {
      BreakLine(par, y, vis, ql, Word(word, ql));
      words := 0;
    }
    if words == 0 && par.width == 0 {
      StartLine(par, y, ql, AddQuoteSuffix(y.c, ql), vis, prefixWidth, Word(word, ql));
    }
    PutWord(par, y, ql, word, w, vis);
    words := words + 1;
  }

  lemma OneMore(m: seq<Mark>, n: nat)
    ensures m + Gaps(n + 1) == m + Gaps(n) + [Gap] && m + Gaps(n) == m + Gaps(n) + []
  {
  }

  lemma EmptyWordless()
    ensures !HasWord([]) && !EndsInWord([])
  {
  }

  // The indent, where the open line has no width; the word w follows.
  method StartLine(par: Par, y: Layout, ql: nat, suffix: bool, ghost vis: bool, prefixWidth: nat, ghost w: Piece)
    requires UnitBlanks(y.cw) && par.width == 0 && (!suffix || AddQuoteSuffix(y.c, ql)) && par.width == LineCols(y.cw, OpenLine(par.out))
    requires prefixWidth == if y.c.prefix.Some? then Cols(y.cw, y.c.prefix.value) else 0
    requires vis ==> AllGood(y, par.out) && OpenLine(par.out) == []
    requires Wraps(y, par.out) && Awaits(y, par.out, w) && !EndsInIndent(par.out)
    modifies par`out, par`width
    ensures par.width == LineCols(y.cw, OpenLine(par.out)) && Content(par.out) == old(Content(par.out))
    ensures par.width == Cols(y.cw, IndentText(y.c, ql, suffix)) && !EndsInWord(OpenLine(par.out))
    ensures vis ==> AllGood(y, par.out) && !HasWord(OpenLine(par.out))
    ensures vis && suffix == AddQuoteSuffix(y.c, ql) ==> Behind(y.c, OpenLine(par.out), ql)
    ensures Wraps(y, par.out) && Awaits(y, par.out, w) && !EndsInBreak(par.out) && (old(Complete(par.out)) ==> Complete(par.out))
  {
    hide AllGood, OpenLine, Content, LineCols, Cols, IndentText, AddQuoteSuffix, Behind, HasWord, EndsInWord, Wraps, Awaits, EndsInBreak, EndsInIndent;
    ghost var p := Indent(IndentText(y.c, ql, suffix), ql);
    IndentOK(y, par.out, ql, suffix);
    WrapsIndent(y, par.out, p, w);
    WrapsMore(y, par.out, p);
    var n := PrintIndent(par, y.c, ql, suffix, y.cw, prefixWidth);
    par.width := n;
  }

  // A line of its own: the indent, text if there is any, the break.
  method WholeLine(par: Par, y: Layout, ql: nat, suffix: bool, text: string, ghost vis: bool, prefixWidth: nat)
    requires Valid(par, y, vis, ql) && UnitBlanks(y.cw) && par.width == 0 && par.spaces == 0
    requires suffix == AddQuoteSuffix(y.c, ql) || (text == "" && !suffix)
    requires prefixWidth == if y.c.prefix.Some? then Cols(y.cw, y.c.prefix.value) else 0
    modifies par`out, par`width, par`spaces
    ensures Valid(par, y, vis, ql) && FillOf(par) == Fill(0, 0)
    ensures Now(par) == old(Now(par)) + Marks(text, ql) + [Break]
  {
    hide AllGood, OpenLine, Content, Marks, LineCols, Cols, IndentText, AddQuoteSuffix, Behind, Wraps, Complete, Stripped, Gaps;
    NoMarks(ql);
    ghost var m := Content(par.out);
    GapFirst(m, 0);
    IndentOK(y, par.out, ql, suffix);
    WrapsMore(y, par.out, Indent(IndentText(y.c, ql, suffix), ql));
    var n := PrintIndent(par, y.c, ql, suffix, y.cw, prefixWidth);
    assert m + [] == m;
    if text != "" {
      FixedOK(y, par.out, Fixed(text, ql));
      WrapsMore(y, par.out, Fixed(text, ql));
      par.out := par.out + [Fixed(text, ql)];
    }
    NewlineOK(y, par.out, None);
    WrapsMore(y, par.out, Newline(None));
    BreakStripped(m + Marks(text, ql));
    par.out := par.out + [Newline(None)];
    par.width, par.spaces := 0, 0;
  }

  // print_flowed_line: the words and blanks of the line are added, and the paragraph ends if term says so.
  method PrintFlowedLine(line: string, par: Par, y: Layout, ql: nat, term: bool, ghost vis: bool)
    requires Valid(par, y, vis, ql) && UnitBlanks(y.cw) && (par.spaces > 0 || par.width == 0 || y.delsp)
    requires vis ==> Visible(y.cw, line) || IndentCols(y, ql) > 0
    modifies par`out, par`width, par`spaces
    ensures Valid(par, y, vis, ql) && (term || line == "" ==> FillOf(par) == Fill(0, 0))
    ensures line == "" ==> Now(par) == Stripped(old(Now(par))) + (if old(par.width) > 0 then [Break] else []) + [Break]
    ensures line != "" ==>
      var f, m := FillText(y, old(FillOf(par)), ql, line, false, line[|line| - 1]), old(Now(par)) + LineMarks(line, ql);
      if term then Now(par) == Stripped(m) + (if f.width > 0 then [Break] else []) else Now(par) == m && FillOf(par) == f
    ensures line != "" && !term && line[|line| - 1] == ' ' ==> par.spaces > 0
  {
    hide AllGood, OpenLine, Content, Marks, LineCols, IndentText, Valid, Cols, Behind, IndentCols, QuoteWidth, UnitBlanks, FillText, FillWord, Visible, Now, Stripped, FirstBlank, LineMarks, Read;
    var prefixWidth := if y.c.prefix.Some? then Cols(y.cw, y.c.prefix.value) else 0;
    if line == "" {
      FlushPar(par, y, vis, ql, ql);
      NoMarks(ql);
      ghost var m := Now(par);
      assert m + [] + [Break] == m + [Break];
      WholeLine(par, y, ql, false, "", vis, prefixWidth);
      return;
    }
    var width := QuoteWidth(y.c, ql);
    var last := line[|line| - 1];
    var words: nat, i: int := 0, 0;
    ghost var t0, f0 := Now(par), FillOf(par);
    TextStart(line, ql, t0);
    assert line[0..] == line;
    while i != -1
      invariant Valid(par, y, vis, ql) && -1 <= i <= |line| && (i > 0 ==> line[i - 1] == ' ')
      invariant words > 0 || par.spaces > 0 || par.width == 0 || y.delsp
      invariant i == -1 && last == ' ' ==> par.spaces > 0
      invariant i >= 0 ==> Read(line, i, words > 0, ql, Now(par), t0)
      invariant i == -1 ==> Now(par) == t0 + LineMarks(line, ql)
      invariant FillText(y, f0, ql, line, false, last) == if i == -1 then FillOf(par) else FillText(y, FillOf(par), ql, line[i..], words > 0, last)
      invariant vis && words > 0 ==> par.width > 0
      decreases if i == -1 then 0 else |line| + 1 - i
    {
      words, i := FlowPiece(line, i, par, y, ql, words, width, vis, prefixWidth, t0);
    }
    if term {
      FlushPar(par, y, vis, ql, ql);
    }
  }

  // The piece of the line from i: a word, or a blank.
  method FlowPiece(line: string, i: nat, par: Par, y: Layout, ql: nat, words0: nat, width: nat, ghost vis: bool, prefixWidth: nat, ghost t0: seq<Mark>)
      returns (words: nat, next: int)
    requires Valid(par, y, vis, ql) && UnitBlanks(y.cw) && (words0 > 0 || par.spaces > 0 || par.width == 0 || y.delsp)
    requires vis ==> (Visible(y.cw, line) || IndentCols(y, ql) > 0) && (words0 > 0 ==> par.width > 0)
    requires line != "" && i <= |line| && (i > 0 ==> line[i - 1] == ' ') && Read(line, i, words0 > 0, ql, Now(par), t0)
    requires width == QuoteWidth(y.c, ql) && prefixWidth == if y.c.prefix.Some? then Cols(y.cw, y.c.prefix.value) else 0
    modifies par`out, par`width, par`spaces
    ensures Valid(par, y, vis, ql) && (words > 0 || par.spaces > 0 || par.width == 0 || y.delsp) && (vis && words > 0 ==> par.width > 0)
    ensures next == -1 || i < next <= |line|
    ensures next > 0 ==> line[next - 1] == ' '
    ensures next == -1 && line[|line| - 1] == ' ' ==> par.spaces > 0
    ensures if next == -1 then Now(par) == t0 + LineMarks(line, ql) else Read(line, next, words > 0, ql, Now(par), t0)
    ensures var last := line[|line| - 1];
      FillText(y, old(FillOf(par)), ql, line[i..], words0 > 0, last) ==
        if next == -1 then FillOf(par) else FillText(y, FillOf(par), ql, line[next..], words > 0, last)
  {
    hide *;
    var last := line[|line| - 1];
    ghost var now := Now(par);
    var p;
    p, next := NextWord(line, i);
    NowIs(par);
    FillStep(y, FillOf(par), ql, line[i..], words0 > 0, last);
    RestOf(line, i, |p|);
    words := words0;
    if p == "" {
      NowMore(par);
      par.spaces := par.spaces + 1;
      NowIs(par);
      ReadBlank(line, i, words > 0, ql, now, t0);
    } else {
      WordSeen(y, line, i, |p|, ql, vis);
      ReadWord(line, i, |p|, words > 0, ql, now, t0);
      words := PlaceWord(par, y, ql, p, last, words, width, vis, Cols(y.cw, p), prefixWidth);
    }
  }

  // The words and blanks up to i have been added to t0; the blank before i waits for the next word, if
  // there was one before.
  ghost predicate Read(line: string, i: nat, seen: bool, ql: nat, now: seq<Mark>, t0: seq<Mark>)
    requires i <= |line|
  {
    && now + (if seen then [Gap] else []) == t0 + Marks(line[..i], ql)
    && (seen <==> !AllBlank(line[..i])) && (i > 0 ==> line[i - 1] == ' ') && (seen ==> i > 0)
  }

  lemma TextStart(line: string, ql: nat, t0: seq<Mark>)
    ensures Read(line, 0, false, ql, t0, t0)
  {
    NoMarks(ql);
    assert t0 + [] == t0;
  }

  lemma NowMore(par: Par)
    ensures Content(par.out) + Gaps(par.spaces + 1) == Now(par) + [Gap]
  {
    OneMore(Content(par.out), par.spaces);
  }

  lemma NowIs(par: Par)
    ensures Now(par) == Content(par.out) + Gaps(par.spaces) && FillOf(par) == Fill(par.width, par.spaces)
  {
  }

  lemma RestOf(line: string, i: nat, n: nat)
    requires i + n <= |line|
    ensures line[i..][..n] == line[i..i + n] && (i + n < |line| ==> line[i..][n + 1..] == line[i + n + 1..])
  {
  }

  // A blank.
  lemma ReadBlank(line: string, i: nat, seen: bool, ql: nat, now: seq<Mark>, t0: seq<Mark>)
    requires i <= |line| && line != "" && Read(line, i, seen, ql, now, t0)
    ensures i < |line| && line[i] == ' ' ==> Read(line, i + 1, seen, ql, now + [Gap], t0)
    ensures i == |line| ==> now + [Gap] == t0 + LineMarks(line, ql)
  {
    hide Marks;
    if i < |line| && line[i] == ' ' {
      assert line[..i + 1] == line[..i] + " ";
      MarksOne(" ", ql);
      MarksAppend(line[..i], " ", ql);
      BlankMore(line, i);
      assert now + [Gap] + (if seen then [Gap] else []) == now + (if seen then [Gap] else []) + [Gap];
      assert t0 + (Marks(line[..i], ql) + [Gap]) == t0 + Marks(line[..i], ql) + [Gap];
    }
    if i == |line| {
      assert line[..i] == line;
      assert t0 + LineMarks(line, ql) == t0 + Marks(line, ql) + if AllBlank(line) then [Gap] else [];
      assert now + [] == now;
    }
  }

  lemma BlankMore(line: string, i: nat)
    requires i < |line| && line[i] == ' '
    ensures AllBlank(line[..i + 1]) <==> AllBlank(line[..i])
  {
    var front, more := line[..i], line[..i + 1];
    if AllBlank(more) {
      forall k | 0 <= k < |front| ensures front[k] == ' ' { assert more[k] == ' '; }
    }
    if AllBlank(front) {
      forall k | 0 <= k < |more| ensures more[k] == ' ' { if k < i { assert front[k] == ' '; } }
    }
  }

  // A word of n characters, and the blank after it.
  lemma ReadWord(line: string, i: nat, n: nat, seen: bool, ql: nat, now: seq<Mark>, t0: seq<Mark>)
    requires i <= |line| && n > 0 && i + n <= |line| && Read(line, i, seen, ql, now, t0) && n == FirstBlank(line[i..])
    ensures var now' := now + (if seen then [Gap] else []) + [Text(line[i..i + n], ql)];
      if i + n == |line| then now' == t0 + LineMarks(line, ql) else line[i + n] == ' ' && Read(line, i + n + 1, true, ql, now', t0)
  {
    hide Marks, AllBlank, FirstBlank, LineMarks;
    var j := i + n;
    WordMarks(line, i, n, ql);
    var now' := now + (if seen then [Gap] else []) + [Text(line[i..j], ql)];
    assert t0 + (Marks(line[..i], ql) + [Text(line[i..j], ql)]) == now';
    if j == |line| {
      assert line[..j] == line;
      WithWord(line, ql);
    } else {
      assert line[..j + 1] == line[..j] + " ";
      MarksOne(" ", ql);
      MarksAppend(line[..j], " ", ql);
      BlankMore(line, j);
      assert t0 + (Marks(line[..j], ql) + [Gap]) == now' + [Gap];
    }
  }

  lemma WithWord(line: string, ql: nat)
    requires !AllBlank(line)
    ensures LineMarks(line, ql) == Marks(line, ql)
  {
  }

  lemma WordMarks(line: string, i: nat, n: nat, ql: nat)
    requires n > 0 && i + n <= |line| && n == FirstBlank(line[i..]) && (i > 0 ==> line[i - 1] == ' ')
    ensures Marks(line[..i + n], ql) == Marks(line[..i], ql) + [Text(line[i..i + n], ql)] && !AllBlank(line[..i + n])
    ensures i + n < |line| ==> line[i + n] == ' '
  {
    hide Marks;
    var word, rest, front := line[i..i + n], line[i..], line[..i + n];
    assert forall k :: 0 <= k < n ==> word[k] == rest[k];
    MarksOne(word, ql);
    hide FirstBlank;
    assert front == line[..i] + word;
    MarksAppend(line[..i], word, ql);
    assert front[i] == word[0];
    if i + n < |line| { assert line[i + n] == rest[n]; }
  }

  lemma WordSeen(y: Layout, line: string, i: nat, n: nat, ql: nat, vis: bool)
    requires i + n <= |line| && n > 0 && (i > 0 ==> line[i - 1] == ' ') && n == FirstBlank(line[i..])
    requires vis ==> Visible(y.cw, line) || IndentCols(y, ql) > 0
    ensures vis ==> Cols(y.cw, line[i..i + n]) > 0 || IndentCols(y, ql) > 0
  {
    hide IndentCols, Cols;
    assert forall k :: i <= k < i + n ==> line[k] == line[i..][k - i];
    if i + n < |line| { assert line[i + n] == line[i..][n]; }
    assert WordAt(line, i, i + n);
  }

  // --- rfc3676_handler ---

  method CountQuotes(line: string) returns (ql: nat)
    ensures ql == QuoteLevel(line)
  {
    ql := 0;
    while ql < |line| && line[ql] == '>'
      invariant ql <= |line| && QuoteLevel(line) == ql + QuoteLevel(line[ql..])
    {
      assert line[ql..][1..] == line[ql + 1..];
      ql := ql + 1;
    }
  }

  // The body of the loop, after the lines that have been read as r.
  method HandleLine(buf: string, par: Par, y: Layout, quotelevel: nat, ghost vis: bool, ghost r: Reading) returns (newql: nat)
    requires Valid(par, y, vis, quotelevel) && UnitBlanks(y.cw) && (par.spaces > 0 || par.width == 0 || y.delsp)
    requires r == Reading(Now(par), par.width > 0, quotelevel) && (vis ==> Shows(y, buf))
    modifies par`out, par`width, par`spaces
    ensures newql == QuoteLevel(buf) && Valid(par, y, vis, newql) && (par.spaces > 0 || par.width == 0 || y.delsp)
    ensures FillOf(par) == FillLine(y, old(FillOf(par)), quotelevel, buf)
    ensures Reading(Now(par), par.width > 0, newql) == ReadLine(r, buf, y.delsp, LineOpen(y, old(FillOf(par)), quotelevel, buf))
  {
    hide Valid, Now, QuoteLevel, ReadLine, FillLine, ReadBody, FillBody, Shows, UnitBlanks, Stripped, TextFill, Unstuffed;
    newql := CountQuotes(buf);
    ghost var f := FillOf(par);
    HandledBody(y, r, f, buf);
    if newql != quotelevel {
      FlushPar(par, y, vis, quotelevel, newql);
    }
    var off := newql;
    if off < |buf| && buf[off] == ' ' {
      off := off + 1;
    }
    HandleBody(buf, off, par, y, newql, vis, Levelled(r, buf).(level := newql));
  }

  lemma HandledBody(y: Layout, r: Reading, f: Fill, line: string)
    requires r.open == (f.width > 0)
    ensures var l := QuoteLevel(line);
      var r1, f1 := Levelled(r, line).(level := l), FillLevelled(f, r.level, line);
      && ReadLine(r, line, y.delsp, LineOpen(y, f, r.level, line)) == ReadBody(r1, line, y.delsp, TextFill(y, f1, line).width > 0)
      && FillLine(y, f, r.level, line) == FillBody(y, f1, line)
  {
    hide QuoteLevel, Unstuffed, TextFill, Marks;
    BodyIs(y, r, r, f, line);
  }

  method HandleBody(buf: string, off: nat, par: Par, y: Layout, newql: nat, ghost vis: bool, ghost r: Reading)
    requires Valid(par, y, vis, newql) && UnitBlanks(y.cw) && newql == QuoteLevel(buf) && (par.spaces > 0 || par.width == 0 || y.delsp)
    requires off == if newql < |buf| && buf[newql] == ' ' then newql + 1 else newql
    requires r == Reading(Now(par), par.width > 0, newql) && (vis ==> Shows(y, buf))
    modifies par`out, par`width, par`spaces
    ensures Valid(par, y, vis, newql) && (par.spaces > 0 || par.width == 0 || y.delsp)
    ensures FillOf(par) == FillBody(y, old(FillOf(par)), buf)
    ensures Reading(Now(par), par.width > 0, newql) == ReadBody(r, buf, y.delsp, TextFill(y, old(FillOf(par)), buf).width > 0)
  {
    hide Valid, Now, QuoteLevel, Unstuffed, FixedLine, Marks, Visible, IndentCols, UnitBlanks, Stripped, FillText, AllBlank;
    TestsRight(buf, off, newql);
    var body := buf[off..];
    var sigsep := body == "-- ";
    var fixed := |buf| == off || buf[|buf| - 1] != ' ' || sigsep;
    if (fixed && (par.width == 0 || |buf| == 0)) || sigsep {
      FlushPar(par, y, vis, newql, newql);
      PrintFixedLine(body, par, y, newql, vis);
    } else {
      var text := if y.delsp && !fixed then body[..|body| - 1] else body;
      TextEnd(buf, y.delsp);
      PrintFlowedLine(text, par, y, newql, fixed, vis);
    }
  }

  // Flowed text that has not lost its last blank to DelSp ends in it.
  lemma TextEnd(line: string, delsp: bool)
    ensures !FixedLine(line) ==> Unstuffed(line) != "" && Unstuffed(line)[|Unstuffed(line)| - 1] == ' '
    ensures FlowedText(line, delsp) == if delsp && !FixedLine(line) then Unstuffed(line)[..|Unstuffed(line)| - 1] else Unstuffed(line)
  {
    hide Unstuffed;
  }

  lemma TestsRight(buf: string, off: nat, ql: nat)
    requires ql == QuoteLevel(buf) && off == if ql < |buf| && buf[ql] == ' ' then ql + 1 else ql
    ensures off <= |buf| && buf[off..] == Unstuffed(buf)
    ensures FixedLine(buf) <==> |buf| == off || buf[|buf| - 1] != ' ' || buf[off..] == "-- "
    ensures |buf| == 0 <==> buf == ""
  {
    hide QuoteLevel;
    var rest := buf[ql..];
    assert buf[off..] == if ql < off then rest[1..] else rest;
    assert |buf| > off ==> buf[off..][|buf| - off - 1] == buf[|buf| - 1];
  }

  method PrintFixedLine(line: string, par: Par, y: Layout, ql: nat, ghost vis: bool)
    requires Valid(par, y, vis, ql) && UnitBlanks(y.cw) && par.width == 0 && par.spaces == 0
    modifies par`out, par`width, par`spaces
    ensures Valid(par, y, vis, ql) && FillOf(par) == Fill(0, 0)
    ensures Now(par) == old(Now(par)) + Marks(line, ql) + [Break]
  {
    var prefixWidth := if y.c.prefix.Some? then Cols(y.cw, y.c.prefix.value) else 0;
    WholeLine(par, y, ql, AddQuoteSuffix(y.c, ql), line, vis, prefixWidth);
  }

  // The DelSp parameter, if there is one, says yes or something else.  What comes out is the text as far
  // as the widths tell paragraphs apart, and every soft break is due.  If the words or the indents can
  // be seen, every line is good.
  method Rfc3676Handler(lines: seq<string>, delspParam: Option<bool>, c: Config, cw: char -> nat) returns (par: Par)
    requires UnitBlanks(cw)
    ensures var y := Layout(c, cw, delspParam == Some(true), delspParam.Some?);
      && Content(par.out) == Ended(Shown(y, lines)).marks && FillOf(par) == Fill(0, 0) && LineCols(cw, OpenLine(par.out)) == 0
      && Wraps(y, par.out) && Complete(par.out)
      && ((forall line :: line in lines ==> Shows(y, line)) ==> AllGood(y, par.out) && OpenLine(par.out) == [])
  {
    hide *;
    var delsp := false;
    par := new Par();
    if delspParam.Some? {
      delsp := delspParam.value;
      par.delsp := true;
    }
    var y := Layout(c, cw, delsp, delspParam.Some?);
    ghost var vis := AllShow(y, lines);
    NothingWritten(par, y, vis, 0);
    HandleLines(lines, par, y, vis);
    AllShows(y, lines);
  }

  ghost predicate AllShow(y: Layout, lines: seq<string>) {
    forall line :: line in lines ==> Shows(y, line)
  }

  lemma AllShows(y: Layout, lines: seq<string>)
    ensures AllShow(y, lines) <==> forall line :: line in lines ==> Shows(y, line)
  {
  }

  // The loop over the lines, and the flush after it.
  method HandleLines(lines: seq<string>, par: Par, y: Layout, ghost vis: bool)
    requires UnitBlanks(y.cw) && Valid(par, y, vis, 0) && Now(par) == [] && FillOf(par) == Fill(0, 0)
    requires vis == AllShow(y, lines)
    modifies par`out, par`width, par`spaces
    ensures Content(par.out) == Ended(Shown(y, lines)).marks && FillOf(par) == Fill(0, 0) && LineCols(y.cw, OpenLine(par.out)) == 0
    ensures Wraps(y, par.out) && Complete(par.out)
    ensures vis ==> AllGood(y, par.out) && OpenLine(par.out) == []
  {
    hide *;
    var quotelevel := 0;
    NothingShown(y);
    NoFill(par);
    AllShows(y, lines);
    for i := 0 to |lines|
      invariant Valid(par, y, vis, quotelevel) && (par.spaces > 0 || par.width == 0 || y.delsp) && quotelevel == LevelOf(lines[..i])
      invariant Shown(y, lines[..i]) == Reading(Now(par), par.width > 0, quotelevel) && Fills(y, lines[..i]) == FillOf(par)
    {
      assert lines[..i + 1] == lines[..i] + [lines[i]];
      ShownMore(y, lines[..i], lines[i]);
      quotelevel := HandleLine(lines[i], par, y, quotelevel, vis, Shown(y, lines[..i]));
    }
    assert lines[..|lines|] == lines;
    IsEnded(Shown(y, lines));
    FlushPar(par, y, vis, quotelevel, quotelevel);
    AtEnd(par, y, vis, quotelevel);
  }

  lemma NoFill(par: Par)
    ensures FillOf(par) == Fill(0, 0) ==> par.width == 0 && par.spaces == 0
  {
  }

  lemma IsEnded(r: Reading)
    ensures Ended(r).marks == Stripped(r.marks) + if r.open then [Break] else []
  {
  }

  lemma NothingShown(y: Layout)
    ensures Shown(y, []) == Reading([], false, 0) && Fills(y, []) == Fill(0, 0) && LevelOf([]) == 0
  {
  }

  lemma AtEnd(par: Par, y: Layout, vis: bool, ql: nat)
    requires Valid(par, y, vis, ql) && FillOf(par) == Fill(0, 0)
    ensures LineCols(y.cw, OpenLine(par.out)) == 0 && (vis ==> AllGood(y, par.out) && OpenLine(par.out) == [])
    ensures Content(par.out) == Now(par) && Wraps(y, par.out) && Complete(par.out)
  {
  }
}
