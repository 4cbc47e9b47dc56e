// address/address.c: what the address parser makes of a string (RFC 5322, section 3.4).
module AddressSyntax {
  import opened Wrappers

  // A group starts with an address that has `group` set and ends with one that has neither name nor
  // mailbox.
  datatype Address = Address(personal: Option<string>, mailbox: Option<string>, group: bool)

  // The buffers hold this many characters; what is more is dropped.
  const MAX: nat := 1023

  function Put(t: string, x: string): (r: string)
    requires |t| <= MAX
    ensures |r| <= MAX
  {
    if |t + x| <= MAX then t + x else (t + x)[..MAX]
  }

  predicate IsWsp(c: char) {
    c == ' ' || c == '\t' || c == '\r' || c == '\n'
  }

  function SkipWsp(s: string): (r: string)
    ensures |r| <= |s|
    ensures r != "" ==> !IsWsp(r[0])
  {
    if s != "" && IsWsp(s[0]) then SkipWsp(s[1..]) else s
  }

  // AddressSpecials
  predicate IsSpecial(c: char) {
    c == '"' || c == '(' || c == ')' || c == ',' || c == '.' || c == ':' || c == ';' ||
    c == '<' || c == '>' || c == '@' || c == '[' || c == '\\' || c == ']'
  }

  datatype Part = User | Domain | Route

  // The characters that end a part of a mailbox.
  predicate Ends(c: char, part: Part) {
    IsSpecial(c) && c != '(' && c != '.' &&
    match part
    case User => c != '"' && c != '\\'
    case Domain => c != '[' && c != '\\' && c != ']'
    case Route => c != ',' && c != '[' && c != '\\' && c != ']'
  }

  // Where a piece of text ends, and the buffer with the text added.
  datatype Scan = Fail | Done(rest: string, text: string)

  // parse_comment, at nesting depth `level`
  function Comment(s: string, level: nat, t: string): (r: Scan)
    requires level > 0 && |t| <= MAX
    ensures r.Done? ==> |r.rest| < |s| && |r.text| <= MAX
  {
    if s == "" then Fail
    else if s[0] == '(' then Comment(s[1..], level + 1, Put(t, [s[0]]))
    else if s[0] == ')' then if level == 1 then Done(s[1..], t) else Comment(s[1..], level - 1, Put(t, [s[0]]))
    else if s[0] == '\\' then if |s| == 1 then Fail else Comment(s[2..], level, Put(t, [s[1]]))
    else Comment(s[1..], level, Put(t, [s[0]]))
  }

  // parse_quote
  function Quote(s: string, t: string): (r: Scan)
    requires |t| <= MAX
    ensures r.Done? ==> |r.rest| < |s| && |r.text| <= MAX
  {
    if s == "" then Fail
    else if s[0] == '\\' then if |s| == 1 then Fail else Quote(s[2..], Put(t, [s[1]]))
    else if s[0] == '"' then Done(s[1..], t)
    else Quote(s[1..], Put(t, [s[0]]))
  }

  predicate InAtom(c: char) {
    !IsWsp(c) && !IsSpecial(c)
  }

  function Atom(s: string, t: string): (r: Scan)
    requires |t| <= MAX
    ensures r.Done? && |r.rest| <= |s| && |r.text| <= MAX
    ensures s != "" && InAtom(s[0]) ==> |r.rest| < |s|
  {
    if s != "" && InAtom(s[0]) then Atom(s[1..], Put(t, [s[0]])) else Done(s, t)
  }

  // next_token
  function NextToken(s: string, t: string): (r: Scan)
    requires |t| <= MAX
    ensures r.Done? ==> |r.rest| <= |s| && |r.text| <= MAX
    ensures r.Done? && s != "" && !IsWsp(s[0]) ==> |r.rest| < |s|
  {
    if s != "" && s[0] == '(' then Comment(s[1..], 1, t)
    else if s != "" && s[0] == '"' then Quote(s[1..], t)
    else if s != "" && IsSpecial(s[0]) then Done(s[1..], Put(t, [s[0]]))
    else Atom(s, t)
  }

  datatype Parts = Bad | Parts(rest: string, mailbox: string, comment: string)

  // A comment after another one is set off by a blank.
  function Spaced(comment: string): (r: string)
    requires |comment| <= MAX
    ensures |r| <= MAX
  {
    if comment != "" && |comment| < MAX then comment + " " else comment
  }

  // parse_mailboxdomain
  function MailboxDomain(s: string, part: Part, mailbox: string, comment: string): (r: Parts)
    requires |mailbox| <= MAX && |comment| <= MAX
    ensures r.Parts? ==> |r.rest| <= |s| && |r.mailbox| <= MAX && |r.comment| <= MAX
    ensures r.Parts? && r.rest != "" ==> Ends(r.rest[0], part)
    decreases |s|
  {
    var u := SkipWsp(s);
    if u == "" then Parts(u, mailbox, comment)
    else if Ends(u[0], part) then Parts(u, mailbox, comment)
    else if u[0] == '(' then
      var n := NextToken(u, Spaced(comment));
      if n.Fail? then Bad else MailboxDomain(n.rest, part, mailbox, n.text)
    else
      var n := NextToken(u, mailbox);
      if n.Fail? then Bad else MailboxDomain(n.rest, part, n.text, comment)
  }

  // parse_address: the mailbox goes to an address with that personal name.
  datatype Mail = NoMail | Mail(rest: string, addr: Address, comment: string)

  function ParseAddress(s: string, token: string, comment: string, personal: Option<string>): (r: Mail)
    requires |token| <= MAX && |comment| <= MAX
    ensures r.Mail? ==> |r.rest| <= |s| && |r.comment| <= MAX && r.addr.mailbox.Some? && !r.addr.group
  {
    var user := MailboxDomain(s, User, token, comment);
    if user.Bad? then NoMail
    else
      var all := if user.rest != "" && user.rest[0] == '@' then MailboxDomain(user.rest[1..], Domain, Put(user.mailbox, "@"), user.comment) else user;
      if all.Bad? then NoMail
      else Mail(all.rest, Address(if all.comment != "" && personal.None? then Some(all.comment) else personal, Some(all.mailbox), false), all.comment)
  }

  // The source route before an address: @domain,@domain:
  function ParseRoute(s: string, token: string, comment: string): (r: Parts)
    requires |token| <= MAX && |comment| <= MAX
    ensures r.Parts? ==> |r.rest| <= |s| && |r.mailbox| <= MAX && |r.comment| <= MAX
    decreases |s|
  {
    if s != "" && s[0] == '@' then
      var r := MailboxDomain(s[1..], Route, Put(token, "@"), comment);
      if r.Bad? then Bad else ParseRoute(r.rest, r.mailbox, r.comment)
    else Parts(s, token, comment)
  }

  // parse_route_addr, after the <
  function RouteAddr(s: string, comment: string, personal: Option<string>): (r: Mail)
    requires |comment| <= MAX
    ensures r.Mail? ==> |r.rest| < |s| && |r.comment| <= MAX && r.addr.mailbox.Some? && !r.addr.group
  {
    var u := SkipWsp(s);
    var route := if u != "" && u[0] == '@' then ParseRoute(u, "", comment) else Parts(u, "", comment);
    if route.Bad? || (u != "" && u[0] == '@' && (route.rest == "" || route.rest[0] != ':')) then NoMail
    else
      var m := if u != "" && u[0] == '@' then ParseAddress(route.rest[1..], Put(route.mailbox, ":"), route.comment, personal)
               else ParseAddress(u, "", comment, personal);
      if m.NoMail? || m.rest == "" || m.rest[0] != '>' then NoMail else Mail(m.rest[1..], m.addr, m.comment)
  }

  // parse_addr_spec; NoMail also when something is left over
  function AddrSpec(phrase: string, comment: string): (r: Mail)
    requires |comment| <= MAX
    ensures r.Mail? ==> |r.comment| <= MAX && r.addr.mailbox.Some? && !r.addr.group
  {
    var m := ParseAddress(phrase, "", comment, None);
    if m.Mail? && (m.rest == "" || m.rest[0] == ',' || m.rest[0] == ';') then m else NoMail
  }

  // --- mutt_addrlist_parse ---

  // The state between two tokens.
  datatype State = State(al: seq<Address>, phrase: string, comment: string, parsed: nat)

  predicate StateOK(st: State) {
    |st.phrase| <= MAX && |st.comment| <= MAX
  }

  datatype Result = Result(al: seq<Address>, parsed: nat)

  const TERMINATOR: Address := Address(None, None, false)

  // The phrase in hand becomes an address, if it is one.
  function AddPhrase(st: State): (r: State)
    requires StateOK(st)
    ensures StateOK(r)
  {
    var m := AddrSpec(st.phrase, st.comment);
    if m.Mail? then st.(al := st.al + [m.addr], parsed := st.parsed + 1) else st
  }

  // A comment after an address without a name becomes its name.
  function NameLast(al: seq<Address>, comment: string): seq<Address> {
    if al == [] then al
    else
      var last := al[|al| - 1];
      if last.personal.None? && last.mailbox.Some? && last.mailbox.value != "" then
        al[..|al| - 1] + [last.(personal := Some(comment))]
      else al
  }

  // ... but at the end of the string only one with an empty name gets it.
  function NameLastAtEnd(al: seq<Address>, comment: string): seq<Address> {
    if al == [] then al
    else
      var last := al[|al| - 1];
      if last.personal == Some("") && last.mailbox.Some? && last.mailbox.value != "" then
        al[..|al| - 1] + [last.(personal := Some(comment))]
      else al
  }

  function Separator(c: char, st: State): (r: State)
    requires StateOK(st)
    ensures StateOK(r)
  {
    var done := if st.phrase != "" then AddPhrase(st)
                else if st.comment != "" then st.(al := NameLast(st.al, st.comment))
                else st;
    State(if c == ';' then done.al + [TERMINATOR] else done.al, "", "", done.parsed)
  }

  function Finish(st: State): Result
    requires StateOK(st)
  {
    if st.phrase != "" then var done := AddPhrase(st); Result(done.al, done.parsed)
    else if st.comment != "" then Result(NameLastAtEnd(st.al, st.comment), st.parsed)
    else Result(st.al, st.parsed)
  }

  // A piece of a phrase, at the non-blank s, with blanks before it or not.
  function Piece(s: string, pending: bool, phrase: string): (r: Scan)
    requires s != "" && !IsWsp(s[0]) && |phrase| <= MAX
    ensures r.Done? ==> |r.rest| < |s| && |r.text| <= MAX
  {
    var p := if pending then Spaced(phrase) else phrase;
    if s[0] == '\\' then
      if |s| > 1 && |p| < MAX then NextToken(s[2..], Put(p, [s[1]])) else NextToken(s[1..], p)
    else NextToken(s, p)
  }

  // One turn of the loop, at the non-blank s; None if the string is malformed.
  function Turn(s: string, pending: bool, st: State): (r: Option<(string, State)>)
    requires s != "" && !IsWsp(s[0]) && StateOK(st)
    ensures r.Some? ==> |r.value.0| < |s| && StateOK(r.value.1)
  {
    if s[0] == ',' || s[0] == ';' then Some((s[1..], Separator(s[0], st)))
    else if s[0] == '(' then
      var n := NextToken(s, Spaced(st.comment));
      if n.Fail? then None else Some((n.rest, st.(comment := n.text)))
    else if s[0] == '"' then
      var n := Quote(s[1..], Spaced(st.phrase));
      if n.Fail? then None else Some((n.rest, st.(phrase := n.text)))
    else if s[0] == ':' then
      Some((s[1..], State(st.al + [Address(None, if st.phrase != "" then Some(st.phrase) else None, true)], "", "", st.parsed)))
    else if s[0] == '<' then
      var m := RouteAddr(s[1..], st.comment, if st.phrase != "" then Some(st.phrase) else None);
      if m.NoMail? then None else Some((m.rest, State(st.al + [m.addr], "", "", st.parsed + 1)))
    else
      var n := Piece(s, pending, st.phrase);
      if n.Fail? then None else Some((n.rest, st.(phrase := n.text)))
  }

  function Run(s: string, st: State): Result
    requires StateOK(st)
    decreases |s|
  {
    var u := SkipWsp(s);
    if u == "" then Finish(st)
    else
      var r := Turn(u, u != s, st);
      if r.None? then Result([], 0) else Run(r.value.0, r.value.1)
  }

  function Parse(al: seq<Address>, s: string): Result {
    Run(s, State(al, "", "", 0))
  }

  // mutt_addrlist_count_recips
  function CountRecips(al: seq<Address>): nat {
    if al == [] then 0
    else CountRecips(al[..|al| - 1]) + if al[|al| - 1].mailbox.Some? && !al[|al| - 1].group then 1 else 0
  }

  lemma CountSnoc(al: seq<Address>, a: Address)
    ensures CountRecips(al + [a]) == CountRecips(al) + if a.mailbox.Some? && !a.group then 1 else 0
  {
    assert (al + [a])[..|al|] == al;
  }

  lemma CountNamed(al: seq<Address>, comment: string)
    ensures CountRecips(NameLast(al, comment)) == CountRecips(al)
    ensures CountRecips(NameLastAtEnd(al, comment)) == CountRecips(al)
  {
    if al != [] {
      var front, last := al[..|al| - 1], al[|al| - 1];
      assert al == front + [last];
      CountSnoc(front, last.(personal := Some(comment)));
    }
  }

  lemma AddPhraseCount(st: State)
    requires StateOK(st)
    ensures AddPhrase(st).parsed - CountRecips(AddPhrase(st).al) == st.parsed - CountRecips(st.al)
  {
    var m := AddrSpec(st.phrase, st.comment);
    if m.Mail? { CountSnoc(st.al, m.addr); }
  }

  lemma SeparatorCount(c: char, st: State)
    requires StateOK(st)
    ensures Separator(c, st).parsed - CountRecips(Separator(c, st).al) == st.parsed - CountRecips(st.al)
  {
    hide AddPhrase, NameLast, CountRecips;
    AddPhraseCount(st);
    CountNamed(st.al, st.comment);
    var done: State := if st.phrase != "" then AddPhrase(st) else if st.comment != "" then st.(al := NameLast(st.al, st.comment)) else st;
    CountSnoc(done.al, TERMINATOR);
  }

  lemma TurnCount(s: string, pending: bool, st: State)
    requires s != "" && !IsWsp(s[0]) && StateOK(st)
    ensures Turn(s, pending, st).Some? ==>
              var t := Turn(s, pending, st).value.1; t.parsed - CountRecips(t.al) == st.parsed - CountRecips(st.al)
  {
    hide Separator, NextToken, Quote, Piece, RouteAddr, CountRecips;
    SeparatorCount(s[0], st);
    if s[0] == ':' {
      CountSnoc(st.al, Address(None, if st.phrase != "" then Some(st.phrase) else None, true));
    } else if s[0] == '<' {
      var m := RouteAddr(s[1..], st.comment, if st.phrase != "" then Some(st.phrase) else None);
      if m.Mail? { CountSnoc(st.al, m.addr); }
    }
  }

  // The count returned is the number of recipients in the list, for a list that was empty before; in
  // general it is the number added, or the list is emptied.
  lemma {:induction false} RunCount(s: string, st: State)
    requires StateOK(st)
    ensures var r := Run(s, st); r == Result([], 0) || r.parsed - CountRecips(r.al) == st.parsed - CountRecips(st.al)
    decreases |s|
  {
    hide Turn, AddPhrase, NameLastAtEnd, CountRecips;
    var u := SkipWsp(s);
    if u == "" {
      AddPhraseCount(st);
      CountNamed(st.al, st.comment);
    } else {
      TurnCount(u, u != s, st);
      var r := Turn(u, u != s, st);
      if r.Some? { RunCount(r.value.0, r.value.1); }
    }
  }

  lemma ParseCount(s: string)
    ensures Parse([], s).parsed == CountRecips(Parse([], s).al)
  {
    RunCount(s, State([], "", "", 0));
    assert CountRecips([]) == 0;
  }
}
