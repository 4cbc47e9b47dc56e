// The lines of a format=flowed text as the standard writes them (RFC 3676, section 4): quote marks, a
// stuffed space, text; and the indents of the lines that come out.
module FlowedLines {
  import opened Wrappers
  import opened FlowedReading

  ghost function Arrows(k: nat): (s: string)
    ensures |s| == k && forall i :: 0 <= i < k ==> s[i] == '>'
  {
    if k == 0 then "" else ">" + Arrows(k - 1)
  }

  ghost function SpacedArrows(k: nat): (s: string)
    ensures |s| == 2 * k && forall i :: 0 <= i < k ==> s[2 * i] == '>' && s[2 * i + 1] == ' '
  {
    if k == 0 then "" else SpacedArrows(k - 1) + "> "
  }

  // --- lines that are read ---

  // A line of quote level k with the text t; a text that starts with a blank or a quote mark is stuffed.
  ghost function Line(k: nat, stuffed: bool, t: string): string {
    Arrows(k) + (if stuffed then " " else "") + t
  }

  lemma {:induction false} LevelIs(s: string, k: nat)
    requires k <= |s| && (forall i :: 0 <= i < k ==> s[i] == '>') && (k < |s| ==> s[k] != '>')
    ensures QuoteLevel(s) == k
  {
    if k > 0 { LevelIs(s[1..], k - 1); }
  }

  // Level, text, kind, and the text of a flowed line under DelSp=yes.
  lemma LineSays(k: nat, stuffed: bool, t: string, delsp: bool)
    requires stuffed || t == "" || (t[0] != ' ' && t[0] != '>')
    ensures var line := Line(k, stuffed, t);
      && QuoteLevel(line) == k && Unstuffed(line) == t
      && (FixedLine(line) <==> t == "" || t[|t| - 1] != ' ' || t == "-- ")
      && FlowedText(line, delsp) == if delsp && t != "" && t[|t| - 1] == ' ' && t != "-- " then t[..|t| - 1] else t
  {
    hide QuoteLevel;
    LineLevel(k, stuffed, t);
  }

  lemma LineLevel(k: nat, stuffed: bool, t: string)
    requires stuffed || t == "" || (t[0] != ' ' && t[0] != '>')
    ensures QuoteLevel(Line(k, stuffed, t)) == k && Unstuffed(Line(k, stuffed, t)) == t
  {
    hide QuoteLevel, Arrows;
    var line := Line(k, stuffed, t);
    LevelIs(line, k);
    assert line[k..] == (if stuffed then " " else "") + t;
  }

  // What is read so far, with the open paragraph ended.
  ghost function Closed(r: Reading): seq<Mark> {
    Stripped(r.marks) + if r.open then [Break] else []
  }

  lemma {:induction false} ClosedTwice(r: Reading)
    ensures Ended(r).marks == Closed(r) && Ended(Ended(r)).marks == Closed(r) && Stripped(Closed(r)) == Closed(r)
  {
    StrippedIs(r.marks);
    assert Stripped(r.marks) + [] == Stripped(r.marks);
  }

  // How the lines of the standard are read: a signature separator and a fixed line outside a paragraph stand
  // alone; a fixed line within one ends it; a flowed line goes on, or starts one; the level separates.
  lemma LineReads(r: Reading, k: nat, stuffed: bool, t: string, delsp: bool, open: bool)
    requires stuffed || t == "" || (t[0] != ' ' && t[0] != '>')
    ensures var within, r1 := r.open && r.level == k, ReadLine(r, Line(k, stuffed, t), delsp, open);
      && (t == "" ==> r1 == Reading(Closed(r) + [Break], false, k))
      && (t == "-- " || (t != "" && t[|t| - 1] != ' ' && !within) ==> r1 == Reading(Closed(r) + Marks(t, k) + [Break], false, k))
      && (t != "" && t[|t| - 1] != ' ' && within ==> r1 == Reading(Stripped(r.marks + Marks(t, k)) + (if open then [Break] else []), false, k))
      && (t != "" && t[|t| - 1] == ' ' && t != "-- " && !(delsp && t == " ") ==>
            var text := if delsp then t[..|t| - 1] else t;
            r1 == Reading((if r.level == k then r.marks else Closed(r)) + Marks(text, k) + (if AllBlank(text) then [Gap] else []), open, k))
  {
    hide Stripped, Marks, FlowedText, FixedLine, Unstuffed, QuoteLevel, Line;
    LineSays(k, stuffed, t, delsp);
    LineEmpty(k, stuffed, t);
    ClosedTwice(r);
    NoMarks(k);
    assert t != "" && t[|t| - 1] != ' ' ==> !AllBlank(t);
    assert Closed(r) + [] == Closed(r);
    assert Marks(t, k) + [] == Marks(t, k);
    var text := FlowedText(Line(k, stuffed, t), delsp);
    var m := if r.level == k then r.marks else Closed(r);
    assert m + LineMarks(text, k) == m + Marks(text, k) + if AllBlank(text) then [Gap] else [];
  }

  lemma LineEmpty(k: nat, stuffed: bool, t: string)
    ensures Line(k, stuffed, t) == "" ==> t == ""
  {
  }

  // The text that marks stand for.
  ghost function Spelled(marks: seq<Mark>): string {
    if marks == [] then ""
    else (match marks[0] case Text(w, _) => w case Gap => " " case Break => "\n") + Spelled(marks[1..])
  }

  // They are the words and blanks of the text, all at its level.
  lemma {:induction false} MarksSpell(s: string, level: nat)
    ensures Spelled(Marks(s, level)) == s
    ensures forall m :: m in Marks(s, level) ==> m == Gap || (m.Text? && m.level == level && m.word != "" && ' ' !in m.word)
    decreases |s|
  {
    hide Marks, FirstBlank;
    if s == "" {
      NoMarks(level);
    } else {
      MarksStep(s, level);
      var n := if s[0] == ' ' then 1 else FirstBlank(s);
      MarksSpell(s[n..], level);
      assert s == s[..n] + s[n..] && Marks(s, level)[1..] == Marks(s[n..], level);
    }
  }

  // --- the indents of what comes out ---

  // Quote marks are set apart for $reflow_space_quotes, except in a format=flowed reply; such a reply has
  // one more mark; any other gets the prefix.  Outside replies a space follows marks that are not set apart.
  lemma {:induction false} IndentIs(c: Config, ql: nat)
    ensures var marks, spaced := ql + (if c.prefix.Some? && c.textFlowed then 1 else 0), c.reflowSpaceQuotes && !(c.textFlowed && c.replying);
      IndentText(c, ql, AddQuoteSuffix(c, ql)) ==
        (if c.prefix.Some? && !c.textFlowed then c.prefix.value else "") +
        (if spaced then SpacedArrows(marks) else Arrows(marks)) + (if !c.replying && !spaced && marks > 0 then " " else "")
  {
    hide SpacedArrows, Arrows, QuoteMarks;
    var marks := ql + if c.prefix.Some? && c.textFlowed then 1 else 0;
    MarksAre(c, marks);
    assert QuoteMarks(c, 0) == "" && SpacedArrows(0) == "" by { MarksAre(c, 0); }
  }

  lemma {:induction false} MarksAre(c: Config, ql: nat)
    ensures QuoteMarks(c, ql) == (if c.reflowSpaceQuotes && !(c.textFlowed && c.replying) then SpacedArrows(ql) else Arrows(ql))
    ensures QuoteMarks(c, 0) == "" && SpacedArrows(0) == ""
  {
    if ql > 0 {
      MarksAre(c, ql - 1);
      assert Arrows(ql) == Arrows(ql - 1) + ">";
    }
  }

  // The width for the text is what the indent leaves of the columns, where a prefix does not count; in a
  // format=flowed reply there are no more than 72 columns.  If nothing is left it is 72.
  lemma WidthIs(c: Config, ql: nat)
    ensures var flowedReply, spaced := c.textFlowed && c.replying, c.reflowSpaceQuotes && !(c.textFlowed && c.replying);
      var cols := if flowedReply && c.wrapCols > 72 then 72 else c.wrapCols;
      var used := if flowedReply then ql + 1 else if spaced then 2 * ql else if !c.replying && (ql > 0 || (c.prefix.Some? && c.textFlowed)) then ql + 1 else ql;
      QuoteWidth(c, ql) == if cols > used then cols - used else 72
  {
  }

  // Indent and text fill the columns when there is no prefix, and in a format=flowed reply.
  lemma WidthFills(c: Config, ql: nat)
    requires if c.textFlowed && c.replying then c.prefix.Some? else c.prefix.None?
    ensures var cols := if c.textFlowed && c.replying && c.wrapCols > 72 then 72 else c.wrapCols;
      var n := |IndentText(c, ql, AddQuoteSuffix(c, ql))|;
      QuoteWidth(c, ql) == if n < cols then cols - n else 72
  {
    hide QuoteWidth, AddQuoteSuffix, IndentText;
    IndentIs(c, ql);
    WidthIs(c, ql);
  }
}
