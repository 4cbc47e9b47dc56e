// Parsing what the printer writes gives the list back.
module AddressRoundTrip {
  import opened Wrappers
  import opened AddressSyntax
  import opened AddressMailbox
  import opened AddressPrinter

  // --- addresses in normal form ---

  // A character of a word outside quotes, comments, groups and brackets.
  predicate WordChar(c: char) {
    !IsWsp(c) && c != ';' && c != ',' && c != '(' && c != '"' && c != ':' && c != '<' && c != '\\'
  }

  // Words with single blanks between them; `t` may start with such a blank.
  predicate Words(t: string) {
    forall i :: 0 <= i < |t| ==> WordAt(t, i)
  }

  predicate WordAt(t: string, i: nat)
    requires i < |t|
  {
    WordChar(t[i]) || (t[i] == ' ' && i + 1 < |t| && WordChar(t[i + 1]))
  }

  predicate Phrase(p: string) {
    p != "" && WordChar(p[0]) && Words(p)
  }

  predicate LocalChar(c: char) {
    InAtom(c) || c == '.'
  }

  predicate DomainChar(c: char) {
    InAtom(c) || c == '.' || c == '[' || c == ']'
  }

  predicate LocalOnly(m: string) {
    forall i :: 0 <= i < |m| ==> LocalChar(m[i])
  }

  predicate DomainOnly(m: string) {
    forall i :: 0 <= i < |m| ==> DomainChar(m[i])
  }

  // local, or local@domain, where it stands without angle brackets
  predicate MailboxOK(m: string) {
    (m != "" ==> m[0] != '@') &&
    (LocalOnly(m) || exists k :: 0 <= k < |m| && m[k] == '@' && LocalOnly(m[..k]) && DomainOnly(m[k + 1..]))
  }

  predicate AddressOK(a: Address) {
    if a.group then a.personal.None? && a.mailbox.Some? && Phrase(a.mailbox.value) && a.mailbox.value[0] != '@' && |a.mailbox.value| <= MAX
    else if a.mailbox.None? then a.personal.None?
    else
      && |a.mailbox.value| <= MAX
      && match a.personal
         case None => a.mailbox.value != "" && if a.mailbox.value[0] == '@' then AngleMailbox(a.mailbox.value) else MailboxOK(a.mailbox.value)
         case Some(p) => AngleMailbox(a.mailbox.value) && NameOK(p) && |p| <= MAX
  }

  // A name that is quoted, or whose words stand with single blanks between them.
  predicate NameOK(p: string) {
    HasSpecial(p) || Phrase(p)
  }

  // A terminator ends a group.
  predicate ListOK(al: seq<Address>, inGroup: bool) {
    al != [] ==>
      AddressOK(al[0]) && (IsTerminator(al[0]) ==> inGroup) &&
      ListOK(al[1..], al[0].group || (inGroup && !IsTerminator(al[0])))
  }

  // --- words ---

  // The words of t go into the phrase one by one.
  lemma {:induction false} WordsRun(t: string, rest: string, st: State)
    requires StateOK(st) && Words(t) && |st.phrase| + |t| <= MAX && Stops(rest)
    requires t != "" && !WordChar(t[0]) ==> st.phrase != ""
    ensures Run(t + rest, st) == Run(rest, st.(phrase := st.phrase + t))
    decreases |t|
  {
    if t == "" {
      assert t + rest == rest && st.phrase + t == st.phrase;
    } else {
      hide Run, Turn, NextToken, SkipWsp, TokenLength, WordChar, Words, Stops, Starts;
      var q := if WordChar(t[0]) then t else t[1..];
      var pending := !WordChar(t[0]);
      WordsTail(t, q);
      SkipBlank(t, q, rest);
      WordStarts(q);
      var base := if pending then st.phrase + " " else st.phrase;
      var k := TokenLength(q);
      TokenRead(q, rest, base);
      TokenStart(q, rest);
      PieceRead(q + rest, pending, st, base);
      RunTurn(t + rest, q + rest, pending, st);
      WordsCut(q, k);
      CutStart(q, k);
      WordsRun(q[k..], rest, st.(phrase := base + q[..k]));
      Rejoined(st.phrase, t, q, k, base);
    }
  }

  lemma WordStarts(q: string)
    ensures q != "" && WordChar(q[0]) ==> Starts(q[0])
  {
  }

  lemma TokenStart(q: string, rest: string)
    requires q != "" && WordChar(q[0])
    ensures q + rest != "" && WordChar((q + rest)[0])
  {
  }

  lemma CutStart(q: string, k: nat)
    requires 0 < k <= |q| && Words(q)
    ensures q[..k] != ""
  {
  }

  lemma Rejoined(phrase: string, t: string, q: string, k: nat, base: string)
    requires k <= |q| && ((t == q && base == phrase) || (t == " " + q && base == phrase + " "))
    ensures (base + q[..k]) + q[k..] == phrase + t
  {
    assert q[..k] + q[k..] == q;
    assert (base + q[..k]) + q[k..] == base + (q[..k] + q[k..]);
    assert (phrase + " ") + q == phrase + (" " + q);
  }

  lemma WordsTail(t: string, q: string)
    requires Words(t) && t != "" && q == if WordChar(t[0]) then t else t[1..]
    ensures q != "" && WordChar(q[0]) && Words(q) && (!WordChar(t[0]) ==> t == " " + q)
  {
    if !WordChar(t[0]) {
      assert WordAt(t, 0);
      forall i | 0 <= i < |q| ensures WordAt(q, i) { assert WordAt(t, i + 1); }
    }
  }

  lemma WordsCut(q: string, k: nat)
    requires Words(q) && k <= |q|
    ensures Words(q[k..])
  {
    forall i | 0 <= i < |q[k..]| ensures WordAt(q[k..], i) { assert WordAt(q, k + i); }
  }

  lemma SkipBlank(t: string, q: string, rest: string)
    requires q != "" && WordChar(q[0]) && (t == q || t == " " + q)
    ensures SkipWsp(t + rest) == q + rest && (SkipWsp(t + rest) != t + rest <==> t != q)
  {
    assert (q + rest)[0] == q[0];
    if t != q {
      assert (t + rest)[1..] == q + rest;
    }
  }

  lemma PieceRead(u: string, pending: bool, st: State, base: string)
    requires StateOK(st) && u != "" && WordChar(u[0]) && (pending ==> st.phrase != "" && |st.phrase| < MAX)
    requires base == if pending then st.phrase + " " else st.phrase
    requires |base| <= MAX && NextToken(u, base).Done?
    ensures Turn(u, pending, st) == Some((NextToken(u, base).rest, st.(phrase := NextToken(u, base).text)))
  {
    hide NextToken;
  }

  lemma RunTurn(s: string, u: string, pending: bool, st: State)
    requires StateOK(st) && u != "" && u == SkipWsp(s) && pending == (u != s)
    ensures var r := Turn(u, pending, st); Run(s, st) == if r.None? then Result([], 0) else Run(r.value.0, r.value.1)
  {
    hide Turn;
  }

  // --- mailboxes ---

  lemma MailboxAngle(m: string)
    requires MailboxOK(m)
    ensures SpecOK(m) && AngleMailbox(m)
  {
    if LocalOnly(m) {
      forall i | 0 <= i < |m| ensures Plain(m[i], User) { assert LocalChar(m[i]); }
    } else {
      var k :| 0 <= k < |m| && m[k] == '@' && LocalOnly(m[..k]) && DomainOnly(m[k + 1..]);
      forall i | 0 <= i < k ensures Plain(m[..k][i], User) { assert LocalChar(m[..k][i]); }
      var domain := m[k + 1..];
      forall i | 0 <= i < |domain| ensures Plain(domain[i], Domain) { assert DomainChar(domain[i]); }
    }
  }

  // A mailbox is read as it stands.
  lemma MailboxRead(m: string, personal: Option<string>)
    requires MailboxOK(m) && |m| <= MAX
    ensures ParseAddress(m, "", "", personal) == Mail("", Address(personal, Some(m), false), "")
  {
    hide ParseAddress;
    MailboxAngle(m);
    assert m + "" == m && "" + m == m;
    TailEnds("", m, "");
    SpecRead(m, "", "", "", "", "", personal);
  }

  // --- one address ---

  lemma {:induction false} QuoteRead(p: string, rest: string, t: string)
    requires |t| + |p| <= MAX
    ensures Quote(Escape(p) + "\"" + rest, t) == Done(rest, t + p)
    decreases |p|
  {
    if p == "" {
      assert Escape(p) + "\"" + rest == "\"" + rest && ("\"" + rest)[1..] == rest && t + p == t;
    } else {
      QuoteRead(p[1..], rest, t + [p[0]]);
      assert t + [p[0]] + p[1..] == t + p by { assert p == [p[0]] + p[1..]; assert t + [p[0]] + p[1..] == t + ([p[0]] + p[1..]); }
      QuoteChar(p, Escape(p[1..]) + "\"" + rest, rest, t);
    }
  }

  lemma QuoteChar(p: string, s: string, rest: string, t: string)
    requires p != "" && s == Escape(p[1..]) + "\"" + rest && |t| < MAX
    ensures Quote(Escape(p) + "\"" + rest, t) == Quote(s, t + [p[0]])
  {
    var all := Escape(p) + "\"" + rest;
    if p[0] == '"' || p[0] == '\\' {
      assert all == ("\\" + [p[0]]) + s by { hide Quote; }
      assert all[0] == '\\' && all[1] == p[0] && all[2..] == s;
    } else {
      assert all == [p[0]] + s by { hide Quote; }
      assert all[0] == p[0] && all[1..] == s;
    }
  }

  // A name in front: the phrase holds it when the angle bracket comes.
  lemma NameRun(p: string, rest: string, acc: seq<Address>, n: nat)
    requires |p| <= MAX && NameOK(p) && rest != "" && rest[0] == ' '
    ensures Run(NameText(p) + rest, State(acc, "", "", n)) == Run(rest, State(acc, p, "", n))
  {
    var st := State(acc, "", "", n);
    assert "" + p == p;
    if HasSpecial(p) {
      QuotedRun(p, rest, st);
    } else {
      WordsRun(p, rest, st);
    }
  }

  lemma QuotedRun(p: string, rest: string, st: State)
    requires HasSpecial(p) && |p| <= MAX && st.phrase == "" && st.comment == "" && rest != "" && rest[0] == ' '
    ensures Run(NameText(p) + rest, st) == Run(rest, st.(phrase := p))
  {
    hide HasSpecial, Run, Turn, Escape, Quote, SkipWsp;
    var s := "\"" + Escape(p) + "\"" + rest;
    assert NameText(p) + rest == s && s[1..] == Escape(p) + "\"" + rest;
    QuoteRead(p, rest, "");
    assert "" + p == p;
    QuoteTurn(s, rest, p, st);
    RunTurn(s, s, false, st);
  }

  lemma QuoteTurn(s: string, rest: string, p: string, st: State)
    requires s != "" && s[0] == '"' && StateOK(st) && st.phrase == "" && Quote(s[1..], "") == Done(rest, p) && |p| <= MAX
    ensures SkipWsp(s) == s && Turn(s, false, st) == Some((rest, st.(phrase := p)))
  {
    hide Quote;
  }

  // <mailbox>, after the name q if there is one.
  lemma AngleRun(m: string, rest: string, q: string, acc: seq<Address>, n: nat)
    requires AngleMailbox(m) && |m| <= MAX && |q| <= MAX
    ensures Run("<" + (m + (">" + rest)), State(acc, q, "", n))
            == Run(rest, State(acc + [Address(if q != "" then Some(q) else None, Some(m), false)], "", "", n + 1))
  {
    hide RouteAddr, AngleMailbox, TailOK;
    var s, x := "<" + (m + (">" + rest)), m + (">" + rest);
    assert s[1..] == x && SkipWsp(s) == s;
    TailEnds(">" + rest, m, "");
    AngleRead(m, ">" + rest, rest, "", "", if q != "" then Some(q) else None);
    RunTurn(s, s, false, State(acc, q, "", n));
  }

  // A blank before an angle bracket makes no difference.
  lemma BlankAngle(x: string, st: State)
    requires StateOK(st)
    ensures Run(" " + ("<" + x), st) == Run("<" + x, st)
  {
    hide RouteAddr;
    var s, u := " " + ("<" + x), "<" + x;
    assert s[1..] == u && SkipWsp(u) == u && SkipWsp(s) == u;
    RunTurn(s, u, true, st);
    RunTurn(u, u, false, st);
  }

  // The state after the text of a: an address without a name is still a phrase.
  ghost function Pending(a: Address, acc: seq<Address>, n: nat): State {
    if !a.group && !Angled(a) && a.mailbox.Some? then State(acc, a.mailbox.value, "", n) else Settled(a, acc, n)
  }

  ghost function Settled(a: Address, acc: seq<Address>, n: nat): State {
    State(acc + [a], "", "", n + if a.mailbox.Some? && !a.group then 1 else 0)
  }

  lemma MailboxWords(m: string)
    requires MailboxOK(m)
    ensures Words(m) && (m != "" ==> WordChar(m[0]))
  {
    if LocalOnly(m) {
      forall i | 0 <= i < |m| ensures WordAt(m, i) { assert LocalChar(m[i]); }
    } else {
      var k :| 0 <= k < |m| && m[k] == '@' && LocalOnly(m[..k]) && DomainOnly(m[k + 1..]);
      forall i | 0 <= i < |m| ensures WordAt(m, i) {
        if i < k { assert LocalChar(m[..k][i]); } else if i > k { assert DomainChar(m[k + 1..][i - k - 1]); }
      }
    }
    if m != "" { assert WordAt(m, 0) && (LocalOnly(m) ==> LocalChar(m[0])); }
  }

  lemma NotAt(m: string)
    requires AngleMailbox(m)
    ensures m != "@"
  {
  }

  lemma AddressRun(a: Address, rest: string, acc: seq<Address>, n: nat)
    requires AddressOK(a) && !a.group && a.mailbox.Some? && Stops(rest) && |a.mailbox.value| <= MAX
    ensures Run(AddrText(a) + rest, State(acc, "", "", n)) == Run(rest, Pending(a, acc, n))
  {
    hide Run, MailboxOK, AngleMailbox, Phrase, HasSpecial, Stops, Words, WordChar, AddrText, NameOK;
    var m := a.mailbox.value;
    if !Angled(a) {
      MailboxAngle(m);
      NotAt(m);
      PlainText(a);
      MailboxWords(m);
      WordsRun(m, rest, State(acc, "", "", n));
      assert "" + m == m;
    } else if a.personal.None? {
      NotAt(m);
      RouteText(a, rest);
      AngleRun(m, rest, "", acc, n);
    } else {
      var p := a.personal.value;
      NotAt(m);
      NameSome(p);
      NamedText(a, rest);
      NameRun(p, " " + ("<" + (m + (">" + rest))), acc, n);
      BlankAngle(m + (">" + rest), State(acc, p, "", n));
      AngleRun(m, rest, p, acc, n);
    }
  }

  lemma RouteText(a: Address, rest: string)
    requires !a.group && a.personal.None? && Angled(a) && a.mailbox.value != "@"
    ensures AddrText(a) + rest == "<" + (a.mailbox.value + (">" + rest))
  {
    var m := a.mailbox.value;
    assert AddrText(a) == "" + "<" + (m + ">" + "");
    assert ("" + "<" + (m + ">" + "")) + rest == "<" + (m + (">" + rest));
  }

  lemma PlainText(a: Address)
    requires !a.group && a.personal.None? && a.mailbox.Some? && a.mailbox.value != "@" && (a.mailbox.value != "" ==> a.mailbox.value[0] != '@')
    ensures AddrText(a) == a.mailbox.value
  {
  }

  lemma NamedText(a: Address, rest: string)
    requires !a.group && a.personal.Some? && a.mailbox.Some? && a.mailbox.value != "@"
    ensures AddrText(a) + rest == NameText(a.personal.value) + (" " + ("<" + (a.mailbox.value + (">" + rest))))
  {
    hide NameText;
    var x, m := NameText(a.personal.value), a.mailbox.value;
    assert AddrText(a) == (x + " ") + "<" + (m + ">" + "");
    assert ((x + " ") + "<" + (m + ">" + "")) + rest == x + (" " + ("<" + (m + (">" + rest))));
  }

  lemma GroupRun(a: Address, rest: string, acc: seq<Address>, n: nat)
    requires AddressOK(a) && a.group
    ensures Run(AddrText(a) + rest, State(acc, "", "", n)) == Run(" " + rest, Settled(a, acc, n))
  {
    var m := a.mailbox.value;
    var tail := ": " + rest;
    GroupText(a, rest);
    WordsRun(m, tail, State(acc, "", "", n));
    assert "" + m == m;
    ColonRun(a, rest, acc, n);
  }

  lemma GroupText(a: Address, rest: string)
    requires AddressOK(a) && a.group
    ensures a.mailbox.Some? && AddrText(a) + rest == a.mailbox.value + (": " + rest) && |a.mailbox.value| <= MAX
    ensures Words(a.mailbox.value) && Stops(": " + rest)
  {
    assert a.mailbox.value != "@";
    assert (": " + rest)[0] == ':';
  }

  lemma ColonRun(a: Address, rest: string, acc: seq<Address>, n: nat)
    requires AddressOK(a) && a.group && |a.mailbox.value| <= MAX
    ensures Run(": " + rest, State(acc, a.mailbox.value, "", n)) == Run(" " + rest, Settled(a, acc, n))
  {
    hide Run;
    var tail := ": " + rest;
    assert SkipWsp(tail) == tail && tail[1..] == " " + rest;
    RunTurn(tail, tail, false, State(acc, a.mailbox.value, "", n));
  }

  // --- lists ---

  predicate Blank(s: string) {
    forall i :: 0 <= i < |s| ==> IsWsp(s[i])
  }

  lemma {:induction false} SkipAll(s: string, x: string)
    requires Blank(s)
    ensures SkipWsp(s + x) == SkipWsp(x)
  {
    if s == "" {
      assert s + x == x;
    } else {
      assert (s + x)[1..] == s[1..] + x;
      SkipAll(s[1..], x);
    }
  }

  // Blanks make no difference while there is no phrase.
  lemma BlankRun(s: string, x: string, st: State)
    requires Blank(s) && StateOK(st) && st.phrase == ""
    ensures Run(s + x, st) == Run(x, st)
  {
    hide RouteAddr, NextToken, Quote, Separator, Finish;
    SkipAll(s, x);
  }

  // A phrase is settled by what comes next.
  lemma Settle(a: Address, x: string, acc: seq<Address>, n: nat)
    requires AddressOK(a) && !a.group && a.mailbox.Some?
    requires var u := SkipWsp(x); u == "" || u[0] == ',' || u[0] == ';'
    ensures Run(x, Pending(a, acc, n)) == Run(x, Settled(a, acc, n))
  {
    if !Angled(a) {
      var m := a.mailbox.value;
      MailboxRead(m, None);
      PhraseAdded(a, acc, n);
    }
  }

  lemma PhraseAdded(a: Address, acc: seq<Address>, n: nat)
    requires a.personal.None? && a.mailbox.Some? && !a.group && a.mailbox.value != "" && |a.mailbox.value| <= MAX
    requires ParseAddress(a.mailbox.value, "", "", None) == Mail("", a, "")
    ensures var st := State(acc, a.mailbox.value, "", n);
      && AddPhrase(st).al == acc + [a] && AddPhrase(st).parsed == n + 1
      && Finish(st) == Finish(Settled(a, acc, n))
      && forall c :: Separator(c, st) == Separator(c, Settled(a, acc, n))
  {
    hide ParseAddress;
  }

  lemma CommaRun(x: string, st: State)
    requires StateOK(st) && st.phrase == "" && st.comment == ""
    ensures Run(", " + x, st) == Run(" " + x, st)
  {
    var s := ", " + x;
    assert SkipWsp(s) == s && s[1..] == " " + x;
    RunTurn(s, s, false, st);
  }

  lemma SemicolonRun(x: string, st: State)
    requires StateOK(st) && st.phrase == "" && st.comment == ""
    ensures Run(";" + x, st) == Run(x, st.(al := st.al + [TERMINATOR]))
  {
    var s := ";" + x;
    assert SkipWsp(s) == s && s[1..] == x;
    RunTurn(s, s, false, st);
  }

  // What follows the text of a, and the rest of the list.
  ghost function Tail(al: seq<Address>, inGroup: bool, breaks: seq<bool>): string
    requires |breaks| == |al| && al != []
  {
    After(al[0], inGroup || al[0].group, al[1..]) + ListText(al[1..], StillInGroup(al[0], inGroup), breaks[1..])
  }

  lemma {:induction false} ListRun(lead: string, al: seq<Address>, inGroup: bool, breaks: seq<bool>, acc: seq<Address>, n: nat)
    requires Blank(lead) && |breaks| == |al| && ListOK(al, inGroup)
    ensures Run(lead + ListText(al, inGroup, breaks), State(acc, "", "", n)) == Result(acc + al, n + CountRecips(al))
    decreases |al|
  {
    hide AddrText, AddressOK, Run, ListText, CountRecips, Tail;
    var st := State(acc, "", "", n);
    BlankRun(lead, ListText(al, inGroup, breaks), st);
    if al == [] {
      NothingLeft(al, inGroup, breaks, st);
    } else {
      var a, g := al[0], StillInGroup(al[0], inGroup);
      var brk := if breaks[0] then "\n\t" else "";
      ListUnfold(al, inGroup, breaks);
      BlankRun(brk, AddrText(a) + Tail(al, inGroup, breaks), st);
      TailRun(al, inGroup, breaks, acc, n);
      var m := n + if a.mailbox.Some? && !a.group then 1 else 0;
      ListRun(" ", al[1..], g, breaks[1..], acc + [a], m);
      ListRun("", al[1..], g, breaks[1..], acc + [a], m);
      CountCons(a, al[1..]);
      assert al == [a] + al[1..] && (acc + [a]) + al[1..] == acc + al;
    }
  }

  lemma NothingLeft(al: seq<Address>, inGroup: bool, breaks: seq<bool>, st: State)
    requires al == [] && |breaks| == 0 && StateOK(st) && st.phrase == "" && st.comment == ""
    ensures Run(ListText(al, inGroup, breaks), st) == Result(st.al + al, st.parsed + CountRecips(al))
  {
    assert ListText(al, inGroup, breaks) == "" && SkipWsp("") == "" && st.al + al == st.al;
  }

  lemma ListUnfold(al: seq<Address>, inGroup: bool, breaks: seq<bool>)
    requires |breaks| == |al| && al != []
    ensures ListText(al, inGroup, breaks) == (if breaks[0] then "\n\t" else "") + (AddrText(al[0]) + Tail(al, inGroup, breaks))
  {
    hide AddrText, After;
    var brk, t, x := if breaks[0] then "\n\t" else "", AddrText(al[0]), After(al[0], inGroup || al[0].group, al[1..]);
    var more := ListText(al[1..], StillInGroup(al[0], inGroup), breaks[1..]);
    assert ((brk + t) + x) + more == brk + (t + (x + more));
  }

  lemma {:induction false} CountCons(a: Address, al: seq<Address>)
    ensures CountRecips([a] + al) == CountRecips(al) + if a.mailbox.Some? && !a.group then 1 else 0
  {
    if al == [] {
      assert [a] + al == [] + [a];
      CountSnoc([], a);
    } else {
      var front, last := al[..|al| - 1], al[|al| - 1];
      assert al == front + [last] && [a] + al == ([a] + front) + [last];
      CountCons(a, front);
      CountSnoc(front, last);
      CountSnoc([a] + front, last);
    }
  }

  // The first address and its separator: what is left is the rest of the list.
  lemma TailRun(al: seq<Address>, inGroup: bool, breaks: seq<bool>, acc: seq<Address>, n: nat)
    requires |breaks| == |al| && al != [] && ListOK(al, inGroup)
    ensures var a := al[0]; var more := ListText(al[1..], StillInGroup(a, inGroup), breaks[1..]);
      var r := Run(AddrText(a) + Tail(al, inGroup, breaks), State(acc, "", "", n));
      r == Run(" " + more, Settled(a, acc, n)) || r == Run("" + more, Settled(a, acc, n))
  {
    hide AddrText, AddressOK, Turn, Run, ListText;
    var a, g := al[0], StillInGroup(al[0], inGroup);
    var more := ListText(al[1..], g, breaks[1..]);
    var tail := Tail(al, inGroup, breaks);
    if a.group {
      assert tail == more;
      GroupRun(a, tail, acc, n);
    } else if IsTerminator(a) {
      TerminatorText(a);
      assert "" + tail == tail;
      var sep := if al[1..] != [] && (al[1].mailbox.Some? || al[1].personal.Some?) then ", " else "";
      assert tail == ";" + (sep + more);
      SemicolonRun(sep + more, State(acc, "", "", n));
      if sep == ", " { CommaRun(more, Settled(a, acc, n)); } else { assert sep + more == "" + more; }
    } else {
      AddressHas(a);
      TailStops(al, inGroup, breaks);
      AddressRun(a, tail, acc, n);
      Settle(a, tail, acc, n);
      if After(a, inGroup || a.group, al[1..]) == ", " {
        CommaRun(more, Settled(a, acc, n));
      } else {
        assert tail == "" + more;
      }
    }
  }

  lemma TerminatorText(a: Address)
    requires IsTerminator(a)
    ensures AddrText(a) == "" && a == TERMINATOR
  {
  }

  lemma AddressHas(a: Address)
    requires AddressOK(a) && !a.group && !IsTerminator(a)
    ensures a.mailbox.Some? && |a.mailbox.value| <= MAX
  {
  }

  // An address with a mailbox is followed by a comma, by the end of a group, or by nothing.
  lemma TailStops(al: seq<Address>, inGroup: bool, breaks: seq<bool>)
    requires |breaks| == |al| && al != [] && ListOK(al, inGroup) && !al[0].group && !IsTerminator(al[0])
    ensures var tail := Tail(al, inGroup, breaks); var u := SkipWsp(tail); Stops(tail) && (u == "" || u[0] == ',' || u[0] == ';')
    ensures After(al[0], inGroup || al[0].group, al[1..]) == ", " || After(al[0], inGroup || al[0].group, al[1..]) == ""
  {
    hide AddrText, AddressOK;
    var g := StillInGroup(al[0], inGroup);
    var tail := Tail(al, inGroup, breaks);
    assert "" + ", " == ", ";
    if al[1..] == [] {
      assert tail == "";
    } else {
      var b := al[1];
      assert b == al[1..][0];
      if b.mailbox.None? && b.personal.None? {
        GroupGiven(b);
        TerminatorText(b);
        var brk := if breaks[1..][0] then "\n\t" else "";
        var rest := Tail(al[1..], g, breaks[1..]);
        ListUnfold(al[1..], g, breaks[1..]);
        assert rest != "" && rest[0] == ';';
        assert tail == brk + rest by { assert "" + rest == rest; }
        SkipAll(brk, rest);
      }
    }
  }

  lemma GroupGiven(b: Address)
    requires AddressOK(b) && b.mailbox.None? && b.personal.None?
    ensures IsTerminator(b)
  {
  }

  // For every list in normal form, wrapped anywhere or not at all: parsing what was written gives the
  // list back, and the count is the number of recipients.
  lemma RoundTrip(al: seq<Address>, breaks: seq<bool>)
    requires ListOK(al, false) && |breaks| == |al|
    ensures Parse([], ListText(al, false, breaks)) == Result(al, CountRecips(al))
  {
    hide Run, ListText;
    ListRun("", al, false, breaks, [], 0);
    assert "" + ListText(al, false, breaks) == ListText(al, false, breaks) && [] + al == al;
  }

  // --- one named address, whatever its name and mailbox ---

  // Words in a row that may be set off by any blanks: what is read as the phrase has single ones.
  lemma {:induction false} WordsAny(p: string, rest: string, st: State) returns (q: string)
    requires StateOK(st) && !HasSpecial(p) && (st.phrase == "" || Phrase(st.phrase)) && |st.phrase| + |p| <= MAX
    requires st.phrase != "" && p != "" ==> IsWsp(p[0])
    requires rest != "" && rest[0] == ' '
    ensures |q| <= MAX && (q == "" || Phrase(q)) && Run(p + rest, st) == Run(rest, st.(phrase := q))
    decreases |p|
  {
    hide Run, Turn, Phrase, HasSpecial, RouteAddr;
    var u := SkipWsp(p);
    SkipFacts(p, rest);
    if u == "" {
      q := st.phrase;
      SameRest(p, rest, st);
    } else {
      var base := if st.phrase != "" then st.phrase + " " else "";
      var k := AtomLength(u);
      AnyStart(p, u, rest);
      AtomRead(u, rest, base);
      AnyTurn(u, rest, u != p, st, base);
      RunTurn(p + rest, u + rest, u != p, st);
      PhraseMore(st.phrase, u[..k], base);
      AnyRest(u, k);
      q := WordsAny(u[k..], rest, st.(phrase := base + u[..k]));
    }
  }

  lemma {:induction false} SkipFacts(p: string, rest: string)
    requires rest != ""
    ensures var u := SkipWsp(p); |u| <= |p| && u == p[|p| - |u|..] && (|u| == |p| ==> u == p) && (u == "" ==> Blank(p)) && (p != "" && IsWsp(p[0]) ==> u != p)
    ensures var u := SkipWsp(p); u != "" ==> SkipWsp(p + rest) == u + rest && (u + rest != p + rest <==> u != p)
  {
    if p != "" && IsWsp(p[0]) {
      SkipFacts(p[1..], rest);
      assert (p + rest)[1..] == p[1..] + rest;
    } else {
      assert p != "" ==> (p + rest)[0] == p[0];
    }
  }

  lemma SameRest(p: string, rest: string, st: State)
    requires StateOK(st) && Blank(p) && rest != "" && IsWsp(rest[0])
    ensures Run(p + rest, st) == Run(rest, st)
  {
    hide Turn;
    SkipAll(p, rest);
    SkipFacts(rest, " ");
    assert (p + rest)[0] == if p != "" then p[0] else rest[0];
    SkipFacts(p + rest, " ");
  }

  lemma AnyStart(p: string, u: string, rest: string)
    requires !HasSpecial(p) && u == SkipWsp(p) && u != "" && u == p[|p| - |u|..] && rest != "" && rest[0] == ' '
    ensures InAtom(u[0]) && !HasSpecial(u) && AtomLength(u) > 0 && Stops(rest) && forall i :: 0 <= i < |u| ==> !IsSpecial(u[i])
  {
    forall i | 0 <= i < |u| ensures !IsSpecial(u[i]) { assert u[i] == p[|p| - |u| + i]; }
  }

  lemma AnyTurn(u: string, rest: string, pending: bool, st: State, base: string)
    requires StateOK(st) && u != "" && InAtom(u[0]) && |base| + |u| <= MAX && Stops(rest) && (st.phrase != "" ==> pending)
    requires base == if st.phrase != "" then st.phrase + " " else ""
    requires Atom(u + rest, base) == Done(u[AtomLength(u)..] + rest, base + u[..AtomLength(u)])
    ensures Turn(u + rest, pending, st) == Some((u[AtomLength(u)..] + rest, st.(phrase := base + u[..AtomLength(u)])))
  {
    hide Atom, AtomLength;
    assert (u + rest)[0] == u[0];
  }

  lemma PhraseMore(phrase: string, w: string, base: string)
    requires phrase == "" || Phrase(phrase)
    requires base == if phrase != "" then phrase + " " else ""
    requires w != "" && forall i :: 0 <= i < |w| ==> InAtom(w[i])
    ensures Phrase(base + w)
  {
    var q := base + w;
    forall i | 0 <= i < |q| ensures WordAt(q, i) {
      if i < |phrase| { assert WordAt(phrase, i); }
    }
  }

  lemma AnyRest(u: string, k: nat)
    requires k == AtomLength(u) && k <= |u| && !HasSpecial(u)
    ensures !HasSpecial(u[k..]) && (u[k..] != "" ==> IsWsp(u[k..][0]))
  {
    forall i | 0 <= i < |u| - k ensures !IsSpecial(u[k..][i]) { assert u[k..][i] == u[k + i]; }
  }

  // The first address of the list stays, unless the string turns out malformed.
  lemma {:induction false} FirstStays(s: string, st: State)
    requires StateOK(st) && st.al != []
    ensures var r := Run(s, st); r.al == [] || r.al[0].mailbox == st.al[0].mailbox
    decreases |s|
  {
    hide Turn, Separator, NextToken, Quote, RouteAddr, AddrSpec, Piece;
    var u := SkipWsp(s);
    if u != "" {
      TurnKeeps(u, u != s, st);
      var r := Turn(u, u != s, st);
      if r.Some? { FirstStays(r.value.0, r.value.1); }
    }
  }

  lemma TurnKeeps(s: string, pending: bool, st: State)
    requires s != "" && !IsWsp(s[0]) && StateOK(st) && st.al != []
    ensures Turn(s, pending, st).Some? ==> var t := Turn(s, pending, st).value.1; t.al != [] && t.al[0].mailbox == st.al[0].mailbox
  {
    hide NextToken, Quote, RouteAddr, AddrSpec, Piece;
  }

  // After the name: the mailbox that is read is the one written only if it is one that is read as it stands.
  lemma AngleBack(m: string, written: string, q: string, p: string)
    requires |q| <= MAX && written == (if m == "@" then "" else m)
    requires Run("<" + (written + ">"), State([], q, "", 0)) == Result([Address(Some(p), Some(m), false)], 1)
    ensures AngleMailbox(m) && q == p && q != ""
  {
    hide RouteAddr, AngleMailbox;
    var st := State([], q, "", 0);
    var s, x := "<" + (written + ">"), written + ">";
    var name: Option<string> := if q != "" then Some(q) else None;
    assert s[1..] == x && SkipWsp(s) == s;
    RunTurn(s, s, false, st);
    var r := RouteAddr(x, "", name);
    if r.Mail? {
      AngleTook(x, name);
      var next := State([] + [r.addr], "", "", 1);
      FirstStays(r.rest, next);
      AngleSame(m, written, x, r, name);
      RunEmpty(next);
      assert Finish(next) == Result([r.addr], 1);
    }
  }

  lemma AngleSame(m: string, written: string, x: string, r: Mail, name: Option<string>)
    requires written == (if m == "@" then "" else m) && x == written + ">" && r.Mail? && r.addr.mailbox == Some(m)
    requires ShortOrSame(x, r, name)
    ensures AngleMailbox(m) && r.rest == "" && r.addr.personal == name
  {
    hide AngleMailbox;
    assert x[..|written|] == written;
  }

  // A named address, whatever its name and mailbox: it is read back as it was written exactly if the name
  // is quoted or has single blanks only, and the mailbox is one that is read as it stands.
  lemma NamedRoundTrip(p: string, m: string, brk: bool)
    requires |p| <= MAX && |m| <= MAX
    ensures var a := Address(Some(p), Some(m), false);
      Parse([], ListText([a], false, [brk])) == Result([a], 1) <==> NameOK(p) && AngleMailbox(m)
  {
    hide Run, AngleMailbox, NameOK, AddrText, Phrase, HasSpecial;
    var a := Address(Some(p), Some(m), false);
    OneListed(a, brk);
    if NameOK(p) && AngleMailbox(m) {
      NamedOK(a);
      RoundTrip([a], [brk]);
    }
    var st, lead := State([], "", "", 0), if brk then "\n\t" else "";
    var written := if m == "@" then "" else m;
    var tail := " " + ("<" + (written + ">"));
    BlankRun(lead, AddrText(a), st);
    NamedWritten(p, m);
    BlankAngle(written + ">", State([], "", "", 0));
    if Run(AddrText(a), st) == Result([a], 1) {
      var q := p;
      if HasSpecial(p) {
        QuotedRun(p, tail, st);
      } else {
        q := WordsAny(p, tail, st);
      }
      BlankAngle(written + ">", State([], q, "", 0));
      AngleBack(m, written, q, p);
      NameIs(p, q);
    }
  }

  lemma NameIs(p: string, q: string)
    requires q == p && q != "" && (HasSpecial(p) || q == "" || Phrase(q))
    ensures NameOK(p)
  {
  }

  lemma NamedWritten(p: string, m: string)
    ensures var written := if m == "@" then "" else m;
      AddrText(Address(Some(p), Some(m), false)) == NameText(p) + (" " + ("<" + (written + ">")))
    ensures !HasSpecial(p) ==> NameText(p) == p
  {
    hide HasSpecial;
    var written := if m == "@" then "" else m;
    assert AddrText(Address(Some(p), Some(m), false)) == (NameText(p) + " ") + "<" + (written + ">" + "");
  }

  lemma OneListed(a: Address, brk: bool)
    requires !a.group && a.mailbox.Some?
    ensures ListText([a], false, [brk]) == (if brk then "\n\t" else "") + AddrText(a)
    ensures CountRecips([a]) == 1
  {
    hide AddrText;
    assert [a][1..] == [] && [brk][1..] == [];
    CountSnoc([], a);
    assert [] + [a] == [a] && CountRecips([]) == 0;
    var t := (if brk then "\n\t" else "") + AddrText(a);
    assert t + "" + "" == t;
  }

  lemma NamedOK(a: Address)
    requires !a.group && a.personal.Some? && a.mailbox.Some? && NameOK(a.personal.value) && AngleMailbox(a.mailbox.value)
    requires |a.personal.value| <= MAX && |a.mailbox.value| <= MAX
    ensures ListOK([a], false)
  {
    hide NameOK, AngleMailbox;
    assert [a][1..] == [] && ListOK([], a.group);
  }

  // For instance "@" stands for no mailbox; it is written as <> and comes back as an empty one.
  lemma NullMailbox(p: string)
    requires |p| <= MAX && NameOK(p)
    ensures !AngleMailbox("@") && AngleMailbox("")
    ensures Parse([], ListText([Address(Some(p), Some("@"), false)], false, [false])) == Result([Address(Some(p), Some(""), false)], 1)
  {
    hide Run, NameOK;
    var a, b := Address(Some(p), Some("@"), false), Address(Some(p), Some(""), false);
    assert AddrText(a) == AddrText(b);
    OneListed(a, false);
    OneListed(b, false);
    NamedOK(b);
    RoundTrip([b], [false]);
  }

  // --- a comment after an address ---

  // An address after which nothing is pending, and a comment, whatever it looks like: after blanks, w is
  // what stands behind its opening bracket, c what is read of it, and x what follows.
  lemma CommentRun(blanks: string, w: string, c: string, x: string, al: seq<Address>, n: nat)
    requires Blank(blanks) && Comment(w, 1, "") == Done(x, c)
    ensures |c| <= MAX && Run(blanks + ("(" + w), State(al, "", "", n)) == Run(x, State(al, "", c, n))
  {
    hide Comment;
    var s, st := "(" + w, State(al, "", "", n);
    BlankRun(blanks, s, st);
    assert SkipWsp(s) == s && s[1..] == w;
    RunTurn(s, s, false, st);
  }

  // The name of the address a after a comment c and x: the comment, if it has no name but a mailbox, and
  // the string does not end there.
  function NameAfter(a: Address, c: string, x: string): Option<string> {
    if a.personal.None? && a.mailbox.Some? && a.mailbox.value != "" && c != "" && SkipWsp(x) != "" then Some(c) else a.personal
  }

  // What follows is nothing, or a separator and more.
  lemma CommentNames(a: Address, acc: seq<Address>, c: string, x: string, n: nat)
    requires |c| <= MAX && (a.personal.None? || a.personal.value != "")
    requires SkipWsp(x) == "" || SkipWsp(x)[0] == ',' || SkipWsp(x)[0] == ';'
    ensures var b := a.(personal := NameAfter(a, c, x)); var u := SkipWsp(x);
      Run(x, State(acc + [a], "", c, n)) ==
        if u == "" then Result(acc + [b], n)
        else Run(u[1..], State(acc + [b] + if u[0] == ';' then [TERMINATOR] else [], "", "", n))
  {
    var st, u := State(acc + [a], "", c, n), SkipWsp(x);
    var b := a.(personal := NameAfter(a, c, x));
    assert (acc + [a])[..|acc|] == acc && (acc + [a])[|acc|] == a;
    if u == "" {
      assert Finish(st) == Result(acc + [a], n);
    } else {
      RunTurn(x, u, u != x, st);
      assert acc + [b] + [] == acc + [b];
    }
  }

  // An address in angle brackets, named or not, and a comment: the comment becomes the name exactly if
  // there is no other, the mailbox and the comment are not empty, and a separator follows.
  lemma CommentAfterAddress(p: Option<string>, m: string, blanks: string, w: string, c: string, x: string)
    requires p.Some? ==> NameOK(p.value) && |p.value| <= MAX
    requires AngleMailbox(m) && |m| <= MAX && Blank(blanks) && Comment(w, 1, "") == Done(x, c)
    requires SkipWsp(x) == "" || SkipWsp(x)[0] == ',' || SkipWsp(x)[0] == ';'
    ensures var text := (if p.Some? then NameText(p.value) + " " else "") + ("<" + (m + (">" + (blanks + ("(" + w)))));
      var named := p.None? && m != "" && c != "" && SkipWsp(x) != "";
      var b, u := Address(if named then Some(c) else p, Some(m), false), SkipWsp(x);
      Parse([], text) == if u == "" then Result([b], 1) else Run(u[1..], State([b] + if u[0] == ';' then [TERMINATOR] else [], "", "", 1))
  {
    hide Run, AngleMailbox, HasSpecial, Phrase, Comment, AddrText, NameOK, NameText, SkipWsp;
    var a := Address(p, Some(m), false);
    var rest := blanks + ("(" + w);
    var angle := "<" + (m + (">" + rest));
    if p.Some? {
      NamedFirst(p.value, angle);
      NameRun(p.value, " " + angle, [], 0);
      BlankAngle(m + (">" + rest), State([], p.value, "", 0));
      NameSome(p.value);
      AngleRun(m, rest, p.value, [], 0);
    } else {
      assert "" + angle == angle;
      AngleRun(m, rest, "", [], 0);
    }
    var b := a.(personal := NameAfter(a, c, x));
    assert [] + [a] == [a] && [] + [b] == [b];
    CommentRun(blanks, w, c, x, [a], 1);
    CommentNames(a, [], c, x, 1);
    assert b == Address(if p.None? && m != "" && c != "" && SkipWsp(x) != "" then Some(c) else p, Some(m), false);
  }

  lemma NamedFirst(p: string, angle: string)
    ensures NameText(p) + " " + angle == NameText(p) + (" " + angle)
  {
  }

  lemma NameSome(p: string)
    requires NameOK(p)
    ensures p != ""
  {
    if HasSpecial(p) {
      var i :| 0 <= i < |p| && IsSpecial(p[i]);
    }
  }

  lemma RunEmpty(st: State)
    requires StateOK(st)
    ensures Run("", st) == Finish(st)
  {
  }
}
