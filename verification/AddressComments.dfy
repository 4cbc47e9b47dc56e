// Comments in address lists: what they are read as, and whom they name.
module AddressComments {
  import opened Wrappers
  import opened AddressSyntax
  import opened AddressMailbox
  import opened AddressPrinter
  import opened AddressRoundTrip

  // w is a way to write the comment c: any character may have a backslash before it, and brackets and
  // backslashes have to.
  ghost predicate Written(w: string, c: string) {
    if w == "" then c == ""
    else if w[0] == '\\' then |w| > 1 && c != "" && w[1] == c[0] && Written(w[2..], c[1..])
    else w[0] != '(' && w[0] != ')' && c != "" && w[0] == c[0] && Written(w[1..], c[1..])
  }

  lemma {:induction false} CommentRead(w: string, c: string, x: string, t: string)
    requires Written(w, c) && |t| + |c| <= MAX
    ensures Comment(w + (")" + x), 1, t) == Done(x, t + c)
    decreases |w|
  {
    var s := w + (")" + x);
    if w == "" {
      assert s == ")" + x && s[1..] == x && t + c == t;
    } else if w[0] == '\\' {
      assert s[0] == w[0] && s[1] == w[1] && s[2..] == w[2..] + (")" + x);
      CommentRead(w[2..], c[1..], x, t + [c[0]]);
      assert c == [c[0]] + c[1..] && (t + [c[0]]) + c[1..] == t + ([c[0]] + c[1..]);
    } else {
      assert s[0] == w[0] && s[1..] == w[1..] + (")" + x);
      CommentRead(w[1..], c[1..], x, t + [c[0]]);
      assert c == [c[0]] + c[1..] && (t + [c[0]]) + c[1..] == t + ([c[0]] + c[1..]);
    }
  }

  // A comment after others is set off by a blank.
  ghost function Joined(a: string, b: string): string {
    if a == "" then b else a + " " + b
  }

  // Blanks and a comment, between phrases and addresses.
  lemma CommentRun(blanks: string, w: string, c: string, x: string, st: State)
    requires Blank(blanks) && Written(w, c) && StateOK(st) && |Joined(st.comment, c)| <= MAX
    ensures Run(blanks + ("(" + (w + (")" + x))), st) == Run(x, st.(comment := Joined(st.comment, c)))
  {
    hide Comment, Written;
    var u := "(" + (w + (")" + x));
    var s := blanks + u;
    SkipAll(blanks, u);
    assert SkipWsp(u) == u && u[1..] == w + (")" + x);
    var t := if st.comment != "" then st.comment + " " else "";
    CommentRead(w, c, x, t);
    assert Spaced(st.comment) == t && t + c == Joined(st.comment, c);
    RunTurn(s, u, u != s, st);
  }

  // Blanks after a phrase.
  lemma BlankEnd(s: string, st: State)
    requires Blank(s) && StateOK(st)
    ensures Run(s, st) == Finish(st)
  {
    hide Finish;
    SkipAll(s, "");
    assert s + "" == s && SkipWsp("") == "";
  }

  // The mailbox in hand becomes an address, with the comment as its name.
  lemma PhraseNamed(m: string, c: string, acc: seq<Address>, n: nat)
    requires MailboxOK(m) && m != "" && |m| <= MAX && c != "" && |c| <= MAX
    ensures var st, b := State(acc, m, c, n), Address(Some(c), Some(m), false);
      && Finish(st) == Result(acc + [b], n + 1)
      && Separator(',', st) == State(acc + [b], "", "", n + 1) && Separator(';', st) == State(acc + [b] + [TERMINATOR], "", "", n + 1)
  {
    hide MailboxOK, ParseAddress, TailOK;
    MailboxAngle(m);
    TailEnds("", m, c);
    assert m + "" == m && "" + m == m;
    SpecRead(m, "", "", "", c, c, None);
    assert AddrSpec(m, c) == Mail("", Address(Some(c), Some(m), false), c);
  }

  // A mailbox without brackets, comments around it, and then nothing or a separator.
  lemma NamedEnd(m: string, c: string, x: string, acc: seq<Address>, n: nat)
    requires MailboxOK(m) && m != "" && |m| <= MAX && c != "" && |c| <= MAX
    requires SkipWsp(x) == "" || SkipWsp(x)[0] == ',' || SkipWsp(x)[0] == ';'
    ensures var u, b := SkipWsp(x), Address(Some(c), Some(m), false);
      Run(x, State(acc, m, c, n)) ==
        if u == "" then Result(acc + [b], n + 1) else Run(u[1..], State(acc + [b] + if u[0] == ';' then [TERMINATOR] else [], "", "", n + 1))
  {
    hide MailboxOK, Separator, Finish;
    var st, u := State(acc, m, c, n), SkipWsp(x);
    PhraseNamed(m, c, acc, n);
    if u != "" {
      RunTurn(x, u, u != x, st);
      assert acc + [Address(Some(c), Some(m), false)] + [] == acc + [Address(Some(c), Some(m), false)];
    }
  }

  lemma PhraseRun(m: string, rest: string, c: string, acc: seq<Address>, n: nat)
    requires MailboxOK(m) && |m| <= MAX && |c| <= MAX && Stops(rest)
    ensures Run(m + rest, State(acc, "", c, n)) == Run(rest, State(acc, m, c, n))
  {
    hide Run, MailboxOK, Words, WordChar;
    MailboxWords(m);
    assert "" + m == m;
    WordsRun(m, rest, State(acc, "", c, n));
  }

  lemma BracketStops(blanks: string, y: string)
    requires Blank(blanks)
    ensures Stops(blanks + ("(" + y)) && Stops(blanks)
  {
    assert (blanks + ("(" + y))[0] == if blanks != "" then blanks[0] else '(';
  }

  // --- a mailbox without brackets ---

  // m (c)
  lemma CommentBehind(m: string, b1: string, w: string, c: string, x: string)
    requires MailboxOK(m) && m != "" && |m| <= MAX && Blank(b1) && Written(w, c) && c != "" && |c| <= MAX
    requires SkipWsp(x) == "" || SkipWsp(x)[0] == ',' || SkipWsp(x)[0] == ';'
    ensures var u, b := SkipWsp(x), Address(Some(c), Some(m), false);
      Parse([], m + (b1 + ("(" + (w + (")" + x))))) ==
        if u == "" then Result([b], 1) else Run(u[1..], State([b] + if u[0] == ';' then [TERMINATOR] else [], "", "", 1))
  {
    hide Run, MailboxOK, Written;
    BracketStops(b1, w + (")" + x));
    PhraseRun(m, b1 + ("(" + (w + (")" + x))), "", [], 0);
    CommentRun(b1, w, c, x, State([], m, "", 0));
    NamedEnd(m, c, x, [], 0);
    assert [] + [Address(Some(c), Some(m), false)] == [Address(Some(c), Some(m), false)];
  }

  // (c) m
  lemma CommentInFront(m: string, b1: string, w: string, c: string, b2: string, x: string)
    requires MailboxOK(m) && m != "" && |m| <= MAX && Blank(b1) && Blank(b2) && Written(w, c) && c != "" && |c| <= MAX && Stops(x)
    requires SkipWsp(x) == "" || SkipWsp(x)[0] == ',' || SkipWsp(x)[0] == ';'
    ensures var u, b := SkipWsp(x), Address(Some(c), Some(m), false);
      Parse([], b1 + ("(" + (w + (")" + (b2 + (m + x)))))) ==
        if u == "" then Result([b], 1) else Run(u[1..], State([b] + if u[0] == ';' then [TERMINATOR] else [], "", "", 1))
  {
    hide Run, MailboxOK, Written;
    CommentRun(b1, w, c, b2 + (m + x), State([], "", "", 0));
    BlankRun(b2, m + x, State([], "", c, 0));
    PhraseRun(m, x, c, [], 0);
    NamedEnd(m, c, x, [], 0);
    assert [] + [Address(Some(c), Some(m), false)] == [Address(Some(c), Some(m), false)];
  }

  // m (c) (d)
  lemma TwoBehind(m: string, b1: string, w: string, c: string, b2: string, v: string, d: string, x: string)
    requires MailboxOK(m) && m != "" && |m| <= MAX && Blank(b1) && Blank(b2)
    requires Written(w, c) && Written(v, d) && c != "" && |c| + 1 + |d| <= MAX
    requires SkipWsp(x) == "" || SkipWsp(x)[0] == ',' || SkipWsp(x)[0] == ';'
    ensures var u, b := SkipWsp(x), Address(Some(c + " " + d), Some(m), false);
      Parse([], m + (b1 + ("(" + (w + (")" + (b2 + ("(" + (v + (")" + x))))))))) ==
        if u == "" then Result([b], 1) else Run(u[1..], State([b] + if u[0] == ';' then [TERMINATOR] else [], "", "", 1))
  {
    hide Run, MailboxOK, Written;
    var y := b2 + ("(" + (v + (")" + x)));
    BracketStops(b1, w + (")" + y));
    PhraseRun(m, b1 + ("(" + (w + (")" + y))), "", [], 0);
    CommentRun(b1, w, c, y, State([], m, "", 0));
    CommentRun(b2, v, d, x, State([], m, c, 0));
    NamedEnd(m, c + " " + d, x, [], 0);
    assert [] + [Address(Some(c + " " + d), Some(m), false)] == [Address(Some(c + " " + d), Some(m), false)];
  }

  // (c) m (d)
  lemma OneEachSide(m: string, b1: string, w: string, c: string, b2: string, b3: string, v: string, d: string, x: string)
    requires MailboxOK(m) && m != "" && |m| <= MAX && Blank(b1) && Blank(b2) && Blank(b3)
    requires Written(w, c) && Written(v, d) && c != "" && |c| + 1 + |d| <= MAX
    requires SkipWsp(x) == "" || SkipWsp(x)[0] == ',' || SkipWsp(x)[0] == ';'
    ensures var u, b := SkipWsp(x), Address(Some(c + " " + d), Some(m), false);
      Parse([], b1 + ("(" + (w + (")" + (b2 + (m + (b3 + ("(" + (v + (")" + x)))))))))) ==
        if u == "" then Result([b], 1) else Run(u[1..], State([b] + if u[0] == ';' then [TERMINATOR] else [], "", "", 1))
  {
    hide Run, MailboxOK, Written;
    var y := b3 + ("(" + (v + (")" + x)));
    CommentRun(b1, w, c, b2 + (m + y), State([], "", "", 0));
    BlankRun(b2, m + y, State([], "", c, 0));
    BracketStops(b3, v + (")" + x));
    PhraseRun(m, y, c, [], 0);
    CommentRun(b3, v, d, x, State([], m, c, 0));
    NamedEnd(m, c + " " + d, x, [], 0);
    assert [] + [Address(Some(c + " " + d), Some(m), false)] == [Address(Some(c + " " + d), Some(m), false)];
  }

  // --- a mailbox in brackets ---

  // Blanks and a comment in a mailbox.
  lemma DomainComment(blanks: string, w: string, c: string, x: string, part: Part, t: string, c0: string)
    requires Blank(blanks) && Written(w, c) && |t| <= MAX && |Joined(c0, c)| <= MAX
    ensures |c0| <= MAX && MailboxDomain(blanks + ("(" + (w + (")" + x))), part, t, c0) == MailboxDomain(x, part, t, Joined(c0, c))
  {
    hide Comment, Written;
    var u := "(" + (w + (")" + x));
    SkipAll(blanks, u);
    assert SkipWsp(u) == u && u[1..] == w + (")" + x);
    var s := if c0 != "" then c0 + " " else "";
    CommentRead(w, c, x, s);
    assert Spaced(c0) == s && s + c == Joined(c0, c);
    DomainStep(blanks + u, u, part, t, c0);
  }

  lemma CommentTail(blanks: string, w: string, c: string, b2: string, x: string, t: string, c0: string)
    requires Blank(blanks) && Blank(b2) && Written(w, c) && |t| <= MAX && |Joined(c0, c)| <= MAX && x != "" && x[0] == '>'
    ensures TailOK(blanks + ("(" + (w + (")" + (b2 + x)))), x, t, c0, Joined(c0, c))
  {
    hide MailboxDomain, Written;
    BracketStops(blanks, w + (")" + (b2 + x)));
    TailEnds(x, t, Joined(c0, c));
    DomainComment(blanks, w, c, b2 + x, User, t, c0);
    DomainComment(blanks, w, c, b2 + x, Domain, t, c0);
    DomainBlanks(b2, x, User, t, Joined(c0, c));
    DomainBlanks(b2, x, Domain, t, Joined(c0, c));
  }

  lemma DomainBlanks(b: string, x: string, part: Part, t: string, c: string)
    requires Blank(b) && |t| <= MAX && |c| <= MAX
    ensures MailboxDomain(b + x, part, t, c) == MailboxDomain(x, part, t, c)
  {
    SkipAll(b, x);
  }

  // <m (c)>, after a name or not: the comment names the address exactly if there is no name.
  lemma CommentInBrackets(p: Option<string>, m: string, b1: string, w: string, c: string, b2: string)
    requires p.Some? ==> NameOK(p.value) && |p.value| <= MAX
    requires AngleMailbox(m) && m != "" && |m| <= MAX && Blank(b1) && Blank(b2) && Written(w, c) && c != "" && |c| <= MAX
    ensures var text := (if p.Some? then NameText(p.value) + " " else "") + ("<" + (m + (b1 + ("(" + (w + (")" + (b2 + ">")))))));
      Parse([], text) == Result([Address(if p.Some? then p else Some(c), Some(m), false)], 1)
  {
    hide Run, AngleMailbox, Written, TailOK, NameOK, NameText, RouteAddr;
    var tail := b1 + ("(" + (w + (")" + (b2 + ">"))));
    var angle := "<" + (m + tail);
    CommentTail(b1, w, c, b2, ">", m, "");
    assert ">" + "" == ">";
    AngleRead(m, tail, "", "", c, p);
    var q := if p.Some? then p.value else "";
    if p.Some? {
      NamedFirst(p.value, angle);
      NameRun(p.value, " " + angle, [], 0);
      BlankAngle(m + tail, State([], p.value, "", 0));
      NameSome(p.value);
    } else {
      assert "" + angle == angle;
    }
    AngleTurn(m + tail, "", q, p, "", [], 0);
    RunEmpty(State([] + [Address(if p.Some? then p else Some(c), Some(m), false)], "", "", 1));
    assert [] + [Address(if p.Some? then p else Some(c), Some(m), false)] == [Address(if p.Some? then p else Some(c), Some(m), false)];
  }

  // (c) <m>
  lemma CommentBeforeBrackets(m: string, b1: string, w: string, c: string, b2: string)
    requires AngleMailbox(m) && |m| <= MAX && Blank(b1) && Blank(b2) && Written(w, c) && c != "" && |c| <= MAX
    ensures Parse([], b1 + ("(" + (w + (")" + (b2 + ("<" + (m + ">"))))))) == Result([Address(Some(c), Some(m), false)], 1)
  {
    hide Run, AngleMailbox, Written, TailOK, RouteAddr;
    CommentRun(b1, w, c, b2 + ("<" + (m + ">")), State([], "", "", 0));
    BlankRun(b2, "<" + (m + ">"), State([], "", c, 0));
    TailEnds(">", m, c);
    assert ">" + "" == ">";
    AngleRead(m, ">", "", c, c, None);
    AngleTurn(m + ">", "", "", None, c, [], 0);
    RunEmpty(State([] + [Address(Some(c), Some(m), false)], "", "", 1));
    assert [] + [Address(Some(c), Some(m), false)] == [Address(Some(c), Some(m), false)];
  }

  lemma AngleTurn(x: string, rest: string, q: string, p: Option<string>, c: string, acc: seq<Address>, n: nat)
    requires |q| <= MAX && |c| <= MAX && p == (if q != "" then Some(q) else None) && RouteAddr(x, c, p).Mail?
    ensures var r := RouteAddr(x, c, p); Run("<" + x, State(acc, q, c, n)) == Run(r.rest, State(acc + [r.addr], "", "", n + 1))
  {
    hide RouteAddr;
    var s := "<" + x;
    assert s[1..] == x && SkipWsp(s) == s;
    RunTurn(s, s, false, State(acc, q, c, n));
  }
}
