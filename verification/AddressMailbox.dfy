// Mailboxes between angle brackets: which of them the parser reads as they stand, and that it reads no
// other one so.
module AddressMailbox {
  import opened Wrappers
  import opened AddressSyntax

  // A character that goes into a part of a mailbox as it is.
  predicate Plain(c: char, part: Part) {
    Starts(c) && !Ends(c, part)
  }

  // A character that a token can start with.
  predicate Starts(c: char) {
    !IsWsp(c) && c != '(' && c != '"'
  }

  predicate AllPlain(x: string, part: Part) {
    forall i :: 0 <= i < |x| ==> Plain(x[i], part)
  }

  // local, or local@domain
  predicate SpecOK(m: string) {
    AllPlain(m, User) || exists k :: 0 <= k < |m| && m[k] == '@' && AllPlain(m[..k], User) && AllPlain(m[k + 1..], Domain)
  }

  // @domain,@domain
  predicate RouteOK(r: string) {
    r != "" && r[0] == '@' && RouteOnly(r)
  }

  predicate RouteOnly(r: string) {
    forall i :: 0 <= i < |r| ==> r[i] == '@' || Plain(r[i], Route)
  }

  // The mailboxes that are read as they stand: with a source route, or without.
  predicate AngleMailbox(m: string) {
    if m != "" && m[0] == '@' then exists k :: 0 <= k < |m| && m[k] == ':' && RouteOK(m[..k]) && SpecOK(m[k + 1..])
    else SpecOK(m)
  }

  // --- tokens ---

  // Where a token ends.
  predicate Stops(rest: string) {
    rest != "" ==> IsWsp(rest[0]) || IsSpecial(rest[0])
  }

  // The length of the first token of w.
  ghost function TokenLength(w: string): (k: nat)
    requires w != "" && Starts(w[0])
    ensures 0 < k <= |w|
  {
    if IsSpecial(w[0]) then 1 else AtomLength(w)
  }

  ghost function AtomLength(w: string): (k: nat)
    ensures k <= |w| && forall i :: 0 <= i < k ==> InAtom(w[i])
    ensures k < |w| ==> !InAtom(w[k])
    ensures w != "" && InAtom(w[0]) ==> k > 0
  {
    if w != "" && InAtom(w[0]) then
      var k := AtomLength(w[1..]);
      assert forall i :: 0 < i < 1 + k ==> w[i] == w[1..][i - 1];
      1 + k
    else 0
  }

  lemma {:induction false} AtomRead(w: string, rest: string, t: string)
    requires |t| + AtomLength(w) <= MAX && Stops(rest)
    ensures Atom(w + rest, t) == Done(w[AtomLength(w)..] + rest, t + w[..AtomLength(w)])
  {
    hide InAtom, Atom, AtomLength;
    LengthStep(w);
    AtomStep(w + rest, t);
    if w != "" && InAtom(w[0]) {
      assert (w + rest)[1..] == w[1..] + rest && (w + rest)[0] == w[0];
      AtomRead(w[1..], rest, t + [w[0]]);
      var k := AtomLength(w[1..]);
      assert w[1 + k..] == w[1..][k..] && w[..1 + k] == [w[0]] + w[1..][..k];
      assert t + [w[0]] + w[1..][..k] == t + ([w[0]] + w[1..][..k]);
    } else {
      StopsAtom(rest);
      assert w[0..] == w && w[..0] == "" && t + "" == t;
      assert w + rest != "" ==> (w + rest)[0] == if w != "" then w[0] else rest[0];
    }
  }

  lemma LengthStep(w: string)
    ensures AtomLength(w) == if w != "" && InAtom(w[0]) then 1 + AtomLength(w[1..]) else 0
  {
  }

  lemma AtomStep(s: string, t: string)
    requires |t| <= MAX
    ensures Atom(s, t) == if s != "" && InAtom(s[0]) then Atom(s[1..], if |t| < MAX then t + [s[0]] else t) else Done(s, t)
  {
  }

  lemma StopsAtom(rest: string)
    requires Stops(rest)
    ensures rest != "" ==> !InAtom(rest[0])
  {
  }

  lemma TokenRead(w: string, rest: string, t: string)
    requires w != "" && Starts(w[0]) && |t| + TokenLength(w) <= MAX && Stops(rest)
    ensures NextToken(w + rest, t) == Done(w[TokenLength(w)..] + rest, t + w[..TokenLength(w)])
  {
    assert (w + rest)[0] == w[0];
    if IsSpecial(w[0]) {
      assert (w + rest)[1..] == w[1..] + rest && w[..1] == [w[0]];
    } else {
      AtomRead(w, rest, t);
    }
  }

  lemma Rest(t: string, x: string, k: nat)
    requires k <= |x|
    ensures (t + x[..k]) + x[k..] == t + x
  {
    assert x[..k] + x[k..] == x;
  }

  // --- what is read as it stands ---

  // What follows a mailbox, of which t has been read: nothing but blanks and comments up to rest, where
  // the comment is c1.
  ghost predicate TailOK(tail: string, rest: string, t: string, c0: string, c1: string) {
    && |t| <= MAX && |c0| <= MAX && Stops(tail) && (rest != "" ==> rest[0] != '@')
    && MailboxDomain(tail, User, t, c0) == Parts(rest, t, c1) && MailboxDomain(tail, Domain, t, c0) == Parts(rest, t, c1)
  }

  lemma TailEnds(rest: string, t: string, c: string)
    requires |t| <= MAX && |c| <= MAX && (rest == "" || rest[0] == '>')
    ensures TailOK(rest, rest, t, c, c)
  {
    DomainEnds(rest, User, t, c);
    DomainEnds(rest, Domain, t, c);
  }

  lemma DomainEnds(rest: string, part: Part, t: string, c: string)
    requires |t| <= MAX && |c| <= MAX && (rest != "" ==> Ends(rest[0], part))
    ensures MailboxDomain(rest, part, t, c) == Parts(rest, t, c) && Stops(rest)
  {
    assert SkipWsp(rest) == rest;
  }

  // Plain characters, and what follows them.
  lemma {:induction false} PlainRead(x: string, tail: string, rest: string, part: Part, t: string, c0: string, c1: string)
    requires AllPlain(x, part) && |t| + |x| <= MAX && |c0| <= MAX && Stops(tail)
    requires MailboxDomain(tail, part, t + x, c0) == Parts(rest, t + x, c1)
    ensures MailboxDomain(x + tail, part, t, c0) == Parts(rest, t + x, c1)
    decreases |x|
  {
    if x == "" {
      assert x + tail == tail && t + x == t;
    } else {
      hide TokenLength, NextToken, Stops;
      assert (x + tail)[0] == x[0] && Plain(x[0], part);
      assert SkipWsp(x + tail) == x + tail;
      var k := TokenLength(x);
      TokenRead(x, tail, t);
      Rest(t, x, k);
      PlainRead(x[k..], tail, rest, part, t + x[..k], c0, c1);
    }
  }

  // A mailbox, and what follows it: the last comment becomes the name if there is none.
  lemma SpecRead(m: string, tail: string, rest: string, t: string, c0: string, c1: string, personal: Option<string>)
    requires SpecOK(m) && |t| + |m| <= MAX && TailOK(tail, rest, t + m, c0, c1)
    ensures ParseAddress(m + tail, t, c0, personal) == Mail(rest, Address(if c1 != "" && personal.None? then Some(c1) else personal, Some(t + m), false), c1)
  {
    hide MailboxDomain, AllPlain, ParseAddress, Ends, Stops;
    EndsAt();
    if AllPlain(m, User) {
      PlainRead(m, tail, rest, User, t, c0, c1);
      OnePart(m + tail, rest, t, t + m, c0, c1, personal);
    } else {
      var k :| 0 <= k < |m| && m[k] == '@' && AllPlain(m[..k], User) && AllPlain(m[k + 1..], Domain);
      var local, domain := m[..k], m[k + 1..];
      var at := "@" + (domain + tail);
      SpecTexts(m, k, tail, t);
      DomainEnds(at, User, t + local, c0);
      PlainRead(local, at, at, User, t, c0, c0);
      PlainRead(domain, tail, rest, Domain, t + local + "@", c0, c1);
      TwoParts(m + tail, at, rest, t, t + local, t + m, c0, c1, personal);
    }
  }

  lemma EndsAt()
    ensures Ends('@', User) && Ends('>', Domain) && Ends('>', User)
  {
  }

  lemma SpecTexts(m: string, k: nat, rest: string, t: string)
    requires k < |m| && m[k] == '@'
    ensures var local, domain := m[..k], m[k + 1..];
      var tail := "@" + (domain + rest);
      m + rest == local + tail && tail[0] == '@' && tail[1..] == domain + rest && t + local + "@" + domain == t + m
  {
    var local, domain := m[..k], m[k + 1..];
    assert m == local + "@" + domain by { assert "@" == [m[k]]; }
    assert (local + "@" + domain) + rest == local + ("@" + (domain + rest));
    assert t + local + "@" + domain == t + (local + "@" + domain);
  }

  lemma OnePart(x: string, rest: string, t: string, m: string, c0: string, c1: string, personal: Option<string>)
    requires |t| <= MAX && |c0| <= MAX && MailboxDomain(x, User, t, c0) == Parts(rest, m, c1) && (rest != "" ==> rest[0] != '@')
    ensures ParseAddress(x, t, c0, personal) == Mail(rest, Address(if c1 != "" && personal.None? then Some(c1) else personal, Some(m), false), c1)
  {
    hide MailboxDomain;
  }

  lemma TwoParts(x: string, tail: string, rest: string, t: string, u: string, m: string, c0: string, c1: string, personal: Option<string>)
    requires |t| <= MAX && |c0| <= MAX && MailboxDomain(x, User, t, c0) == Parts(tail, u, c0) && tail != "" && tail[0] == '@' && |u| < MAX
    requires MailboxDomain(tail[1..], Domain, u + "@", c0) == Parts(rest, m, c1)
    ensures ParseAddress(x, t, c0, personal) == Mail(rest, Address(if c1 != "" && personal.None? then Some(c1) else personal, Some(m), false), c1)
  {
    hide MailboxDomain;
  }

  // How far it is to the next @ or the end.
  ghost function RouteSpan(r: string): (k: nat)
    ensures k <= |r| && (forall i :: 0 <= i < k ==> r[i] != '@') && (k < |r| ==> r[k] == '@')
  {
    if r == "" || r[0] == '@' then 0
    else
      var k := RouteSpan(r[1..]);
      assert forall i :: 0 < i < 1 + k ==> r[i] == r[1..][i - 1];
      1 + k
  }

  lemma {:induction false} RouteRead(r: string, rest: string, t: string, c: string)
    requires (r == "" || r[0] == '@') && RouteOnly(r) && |t| + |r| <= MAX && |c| <= MAX && rest != "" && rest[0] == ':'
    ensures ParseRoute(r + rest, t, c) == Parts(rest, t + r, c)
    decreases |r|
  {
    if r == "" {
      assert r + rest == rest && t + r == t;
    } else {
      hide MailboxDomain, RouteSpan, RouteOnly, AllPlain;
      var x, k := r[1..], RouteSpan(r[1..]);
      RouteSplit(r, x, k, rest, t);
      DomainEnds(x[k..] + rest, Route, t + "@" + x[..k], c);
      PlainRead(x[..k], x[k..] + rest, x[k..] + rest, Route, t + "@", c, c);
      RouteRead(x[k..], rest, (t + "@") + x[..k], c);
    }
  }

  lemma RouteSplit(r: string, x: string, k: nat, rest: string, t: string)
    requires r != "" && r[0] == '@' && RouteOnly(r) && x == r[1..] && k == RouteSpan(x) && rest != "" && rest[0] == ':'
    ensures (r + rest)[0] == '@' && (r + rest)[1..] == x[..k] + (x[k..] + rest)
    ensures AllPlain(x[..k], Route) && RouteOnly(x[k..]) && (x[k..] == "" || x[k..][0] == '@')
    ensures (x[k..] + rest)[0] == '@' || (x[k..] + rest)[0] == ':'
    ensures ((t + "@") + x[..k]) + x[k..] == t + r
  {
    hide IsWsp, IsSpecial, Ends;
    RouteTexts(r, x, k, rest, t);
    forall i | 0 <= i < k ensures Plain(x[..k][i], Route) { assert r[i + 1] == x[i]; }
    forall i | 0 <= i < |x| - k ensures x[k..][i] == '@' || Plain(x[k..][i], Route) { assert r[i + k + 1] == x[k + i]; }
  }

  lemma RouteTexts(r: string, x: string, k: nat, rest: string, t: string)
    requires r != "" && r[0] == '@' && x == r[1..] && k <= |x| && (k < |x| ==> x[k] == '@') && rest != "" && rest[0] == ':'
    ensures (r + rest)[0] == '@' && (r + rest)[1..] == x[..k] + (x[k..] + rest)
    ensures (x[k..] == "" || x[k..][0] == '@') && ((x[k..] + rest)[0] == '@' || (x[k..] + rest)[0] == ':')
    ensures ((t + "@") + x[..k]) + x[k..] == t + r
  {
    assert r == "@" + x;
    Rest(t + "@", x, k);
    assert (t + "@") + x == t + ("@" + x);
    assert (r + rest)[1..] == x + rest;
    assert x == x[..k] + x[k..];
    assert (x[..k] + x[k..]) + rest == x[..k] + (x[k..] + rest);
    assert (x[k..] + rest)[0] == if k < |x| then x[k] else rest[0];
  }

  // Between angle brackets, with comments or without.
  lemma AngleRead(m: string, tail: string, rest: string, c0: string, c1: string, personal: Option<string>)
    requires AngleMailbox(m) && |m| <= MAX && TailOK(tail, ">" + rest, m, c0, c1) && tail != "" && (m == "" ==> !IsWsp(tail[0]) && tail[0] != '@')
    ensures RouteAddr(m + tail, c0, personal) == Mail(rest, Address(if c1 != "" && personal.None? then Some(c1) else personal, Some(m), false), c1)
  {
    hide ParseAddress, ParseRoute, RouteOK, SpecOK, RouteAddr, TailOK;
    TailComment(tail, ">" + rest, m, c0, c1);
    AngleFirst(m, tail);
    var close := ">" + rest;
    assert close[1..] == rest;
    if m != "" && m[0] == '@' {
      var k :| 0 <= k < |m| && m[k] == ':' && RouteOK(m[..k]) && SpecOK(m[k + 1..]);
      RouteTail(m, k, tail, c0);
      SpecRead(m[k + 1..], tail, close, m[..k] + ":", c0, c1, personal);
      RouteSteps(m + tail, ":" + (m[k + 1..] + tail), m[..k], c0, personal);
    } else {
      assert "" + m == m;
      SpecRead(m, tail, close, "", c0, c1, personal);
      PlainSteps(m + tail, c0, personal);
    }
  }

  lemma TailComment(tail: string, rest: string, t: string, c0: string, c1: string)
    requires TailOK(tail, rest, t, c0, c1)
    ensures |t| <= MAX && |c0| <= MAX
  {
  }

  lemma PlainSteps(s: string, c: string, personal: Option<string>)
    requires s != "" && !IsWsp(s[0]) && s[0] != '@' && |c| <= MAX
    ensures var m := ParseAddress(s, "", c, personal);
      m.Mail? && m.rest != "" && m.rest[0] == '>' ==> RouteAddr(s, c, personal) == Mail(m.rest[1..], m.addr, m.comment)
  {
    hide ParseAddress;
    assert SkipWsp(s) == s;
  }

  lemma RouteSteps(s: string, rest: string, mailbox: string, c: string, personal: Option<string>)
    requires |c| <= MAX && s != "" && s[0] == '@' && ParseRoute(s, "", c) == Parts(rest, mailbox, c) && rest != "" && rest[0] == ':' && |mailbox| <= MAX
    ensures var m := ParseAddress(rest[1..], Put(mailbox, ":"), c, personal);
      m.Mail? && m.rest != "" && m.rest[0] == '>' ==> RouteAddr(s, c, personal) == Mail(m.rest[1..], m.addr, m.comment)
  {
    hide ParseAddress, ParseRoute, Put;
    assert SkipWsp(s) == s;
  }

  lemma AngleFirst(m: string, tail: string)
    requires AngleMailbox(m) && tail != "" && (m == "" ==> !IsWsp(tail[0]))
    ensures SkipWsp(m + tail) == m + tail && (m + tail)[0] == if m != "" then m[0] else tail[0]
  {
    assert (m + tail)[0] == if m != "" then m[0] else tail[0];
    if m != "" && m[0] != '@' && !AllPlain(m, User) {
      var k :| 0 <= k < |m| && m[k] == '@' && AllPlain(m[..k], User) && AllPlain(m[k + 1..], Domain);
      assert m[..k][0] == m[0];
    }
  }

  lemma RouteTail(m: string, k: nat, tail: string, c: string)
    requires k < |m| <= MAX && m[k] == ':' && RouteOK(m[..k]) && |c| <= MAX
    ensures var rest := ":" + (m[k + 1..] + tail);
      ParseRoute(m + tail, "", c) == Parts(rest, m[..k], c) && rest[1..] == m[k + 1..] + tail && Put(m[..k], ":") == m[..k] + ":"
    ensures (m[..k] + ":") + m[k + 1..] == m
  {
    var r, rest := m[..k], ":" + (m[k + 1..] + tail);
    assert m == r + ":" + m[k + 1..] by { assert ":" == [m[k]]; }
    assert m + tail == r + rest by { assert (r + ":" + m[k + 1..]) + tail == r + (":" + (m[k + 1..] + tail)); }
    RouteRead(r, rest, "", c);
    assert "" + r == r;
  }

  // --- and nothing else ---

  // What a piece of code took from s: all but rest, adding no more to t than it took, and as much only if
  // it added just that.
  ghost predicate Took(s: string, rest: string, t: string, text: string) {
    && |rest| <= |s| && rest == s[|s| - |rest|..] && |text| <= |t| + |s| - |rest|
    && (|text| == |t| + |s| - |rest| ==> text == t + s[..|s| - |rest|])
  }

  lemma TookMore(s: string, u: string, t: string, v: string, rest: string, text: string)
    requires Took(s, u, t, v) && Took(u, rest, v, text)
    ensures Took(s, rest, t, text)
    ensures |text| == |t| + |s| - |rest| ==> |v| == |t| + |s| - |u| && |text| == |v| + |u| - |rest|
    ensures s[..|s| - |rest|] == s[..|s| - |u|] + u[..|u| - |rest|]
  {
    var a, b := s[..|s| - |u|], u[..|u| - |rest|];
    assert s == a + u && u == b + rest;
    assert s == (a + b) + rest by { assert a + (b + rest) == (a + b) + rest; }
    assert t + (a + b) == (t + a) + b;
  }

  lemma TookNone(s: string, t: string)
    ensures Took(s, s, t, t)
  {
    assert t + s[..0] == t;
  }

  lemma {:induction false} BlanksTook(s: string, t: string)
    ensures Took(s, SkipWsp(s), t, t)
    ensures |SkipWsp(s)| == |s| ==> SkipWsp(s) == s
  {
    if s != "" && IsWsp(s[0]) {
      BlanksTook(s[1..], t);
      assert s[1..][|s[1..]| - |SkipWsp(s)|..] == s[|s| - |SkipWsp(s)|..];
    } else {
      TookNone(s, t);
    }
  }

  lemma {:induction false} AtomTook(s: string, t: string)
    requires |t| <= MAX
    ensures Took(s, Atom(s, t).rest, t, Atom(s, t).text)
    ensures forall i :: 0 <= i < |s| - |Atom(s, t).rest| ==> InAtom(s[i])
  {
    if s != "" && InAtom(s[0]) {
      var v, r := Put(t, [s[0]]), Atom(s[1..], Put(t, [s[0]]));
      AtomTook(s[1..], v);
      OneTook(s, t);
      TookMore(s, s[1..], t, v, r.rest, r.text);
      assert forall i :: 0 < i < |s| - |r.rest| ==> s[i] == s[1..][i - 1];
    } else {
      TookNone(s, t);
    }
  }

  lemma OneTook(s: string, t: string)
    requires s != "" && |t| <= MAX
    ensures Took(s, s[1..], t, Put(t, [s[0]]))
  {
    assert s[..1] == [s[0]];
  }

  lemma {:induction false} QuoteTook(s: string, t: string)
    requires |t| <= MAX && Quote(s, t).Done?
    ensures var r := Quote(s, t); |r.rest| < |s| && r.rest == s[|s| - |r.rest|..] && |r.text| < |t| + |s| - |r.rest|
    decreases |s|
  {
    if s[0] == '\\' {
      QuoteTook(s[2..], Put(t, [s[1]]));
    } else if s[0] != '"' {
      QuoteTook(s[1..], Put(t, [s[0]]));
    }
  }

  lemma {:induction false} CommentTook(s: string, level: nat, t: string)
    requires level > 0 && |t| <= MAX && Comment(s, level, t).Done?
    ensures var r := Comment(s, level, t); |r.rest| < |s| && r.rest == s[|s| - |r.rest|..]
    decreases |s|
  {
    if s[0] == '(' {
      CommentTook(s[1..], level + 1, Put(t, [s[0]]));
    } else if s[0] == ')' {
      if level > 1 { CommentTook(s[1..], level - 1, Put(t, [s[0]])); }
    } else if s[0] == '\\' {
      CommentTook(s[2..], level, Put(t, [s[1]]));
    } else {
      CommentTook(s[1..], level, Put(t, [s[0]]));
    }
  }

  // A token of a mailbox: unless it is quoted it is taken as it stands.
  lemma TokenTook(u: string, t: string, part: Part)
    requires u != "" && !IsWsp(u[0]) && u[0] != '(' && !Ends(u[0], part) && |t| <= MAX && NextToken(u, t).Done?
    ensures var r := NextToken(u, t);
      && |r.rest| < |u| && Took(u, r.rest, t, r.text)
      && (|r.text| == |t| + |u| - |r.rest| ==> AllPlain(u[..|u| - |r.rest|], part))
  {
    var r := NextToken(u, t);
    if u[0] == '"' {
      QuoteTook(u[1..], t);
      assert u[1..][|u[1..]| - |r.rest|..] == u[|u| - |r.rest|..];
    } else if IsSpecial(u[0]) {
      OneTook(u, t);
    } else {
      AtomTook(u, t);
    }
  }

  // One step of parse_mailboxdomain.
  lemma DomainStep(s: string, u: string, part: Part, t: string, c: string)
    requires |t| <= MAX && |c| <= MAX && u == SkipWsp(s)
    ensures var r := MailboxDomain(s, part, t, c);
      if u == "" || Ends(u[0], part) then r == Parts(u, t, c)
      else if u[0] == '(' then
        var n := NextToken(u, Spaced(c));
        if n.Fail? then r == Bad else |n.text| <= MAX && r == MailboxDomain(n.rest, part, t, n.text)
      else
        var n := NextToken(u, t);
        if n.Fail? then r == Bad else |n.text| <= MAX && r == MailboxDomain(n.rest, part, n.text, c)
  {
    hide NextToken, Spaced;
  }

  lemma {:induction false} MailboxTook(s: string, part: Part, t: string, c: string)
    requires |t| <= MAX && |c| <= MAX && MailboxDomain(s, part, t, c).Parts?
    ensures var r := MailboxDomain(s, part, t, c);
      && Took(s, r.rest, t, r.mailbox)
      && (|r.mailbox| == |t| + |s| - |r.rest| ==> AllPlain(s[..|s| - |r.rest|], part) && r.comment == c)
    decreases |s|
  {
    hide NextToken, AllPlain, Took, Ends, Spaced, MailboxDomain, SkipWsp;
    var u := SkipWsp(s);
    var r := MailboxDomain(s, part, t, c);
    DomainStep(s, u, part, t, c);
    BlanksTook(s, t);
    NonePlain(part);
    if u == "" || Ends(u[0], part) {
      BlanksShort(s, t);
    } else if u[0] == '(' {
      var n := NextToken(u, Spaced(c));
      CommentGone(u, Spaced(c), t);
      MailboxTook(n.rest, part, t, n.text);
      BlanksShort(s, t);
      TookMore(u, n.rest, t, t, r.rest, r.mailbox);
      TookMore(s, u, t, t, r.rest, r.mailbox);
    } else {
      var n := NextToken(u, t);
      TokenTook(u, t, part);
      MailboxTook(n.rest, part, n.text, c);
      BlanksShort(s, t);
      TookMore(u, n.rest, t, n.text, r.rest, r.mailbox);
      TookMore(s, u, t, t, r.rest, r.mailbox);
      PlainJoin(u[..|u| - |n.rest|], n.rest[..|n.rest| - |r.rest|], part);
    }
  }

  lemma NonePlain(part: Part)
    ensures AllPlain("", part)
  {
  }

  lemma PlainJoin(a: string, b: string, part: Part)
    ensures AllPlain(a, part) && AllPlain(b, part) ==> AllPlain(a + b, part)
  {
  }

  // If no less is added than taken, there were no blanks.
  lemma BlanksShort(s: string, t: string)
    ensures |t| == |t| + |s| - |SkipWsp(s)| ==> SkipWsp(s) == s && s[..|s| - |SkipWsp(s)|] == ""
    ensures |SkipWsp(s)| <= |s|
  {
    BlanksTook(s, t);
  }

  // A comment adds nothing to the mailbox.
  lemma CommentGone(u: string, c: string, t: string)
    requires u != "" && u[0] == '(' && |c| <= MAX && NextToken(u, c).Done?
    ensures var n := NextToken(u, c); |n.rest| < |u| && |n.text| <= MAX && Took(u, n.rest, t, t)
  {
    CommentTook(u[1..], 1, c);
    var n := NextToken(u, c);
    assert u[1..][|u[1..]| - |n.rest|..] == u[|u| - |n.rest|..];
  }

  lemma SpecTook(s: string, t: string, c: string, personal: Option<string>)
    requires |t| <= MAX && |c| <= MAX && ParseAddress(s, t, c, personal).Mail?
    ensures var r := ParseAddress(s, t, c, personal); var mb := r.addr.mailbox.value;
      && Took(s, r.rest, t, mb)
      && (|mb| == |t| + |s| - |r.rest| ==> SpecOK(s[..|s| - |r.rest|]) && r.comment == c && (c == "" ==> r.addr.personal == personal))
  {
    hide MailboxDomain, Took, AllPlain, SpecOK;
    var user := MailboxDomain(s, User, t, c);
    MailboxTook(s, User, t, c);
    if user.rest != "" && user.rest[0] == '@' {
      var u, v := user.rest[1..], Put(user.mailbox, "@");
      var all := MailboxDomain(u, Domain, v, user.comment);
      MailboxTook(u, Domain, v, user.comment);
      AtTook(user.rest, user.mailbox);
      TookMore(user.rest, u, user.mailbox, v, all.rest, all.mailbox);
      TookMore(s, user.rest, t, user.mailbox, all.rest, all.mailbox);
      SpecJoin(s[..|s| - |user.rest|], u[..|u| - |all.rest|]);
    } else {
      SpecLocal(s[..|s| - |user.rest|]);
    }
  }

  lemma AtTook(s: string, t: string)
    requires s != "" && s[0] == '@' && |t| <= MAX
    ensures Took(s, s[1..], t, Put(t, "@")) && s[..|s| - |s[1..]|] == "@"
  {
    OneTook(s, t);
    assert ['@'] == "@";
  }

  lemma SpecLocal(a: string)
    ensures AllPlain(a, User) ==> SpecOK(a)
  {
  }

  lemma SpecJoin(a: string, b: string)
    ensures AllPlain(a, User) && AllPlain(b, Domain) ==> SpecOK(a + ("@" + b))
  {
    var m := a + ("@" + b);
    assert m[|a|] == '@' && m[..|a|] == a && m[|a| + 1..] == b;
  }

  lemma {:induction false} RouteTook(s: string, t: string, c: string)
    requires |t| <= MAX && |c| <= MAX && ParseRoute(s, t, c).Parts?
    ensures var r := ParseRoute(s, t, c);
      && Took(s, r.rest, t, r.mailbox)
      && (|r.mailbox| == |t| + |s| - |r.rest| ==> RouteOnly(s[..|s| - |r.rest|]) && r.comment == c)
    decreases |s|
  {
    hide MailboxDomain, Took, AllPlain, RouteOnly;
    if s != "" && s[0] == '@' {
      var u, v := s[1..], Put(t, "@");
      var d := MailboxDomain(u, Route, v, c);
      var r := ParseRoute(d.rest, d.mailbox, d.comment);
      AtTook(s, t);
      MailboxTook(u, Route, v, c);
      RouteTook(d.rest, d.mailbox, d.comment);
      TookMore(u, d.rest, v, d.mailbox, r.rest, r.mailbox);
      TookMore(s, u, t, v, r.rest, r.mailbox);
      RouteJoin(u[..|u| - |d.rest|], d.rest[..|d.rest| - |r.rest|]);
    } else {
      TookNone(s, t);
      assert s[..0] == "";
      RouteNone();
    }
  }

  lemma RouteNone()
    ensures RouteOnly("")
  {
  }

  lemma RouteJoin(a: string, b: string)
    ensures AllPlain(a, Route) && RouteOnly(b) ==> RouteOnly("@" + (a + b))
  {
  }

  // Whatever stands between the brackets, the mailbox is no longer than that, and as long only if it is that.
  lemma AngleTook(s: string, personal: Option<string>)
    requires RouteAddr(s, "", personal).Mail?
    ensures ShortOrSame(s, RouteAddr(s, "", personal), personal)
  {
    hide *;
    var u := SkipWsp(s);
    if u != "" && u[0] == '@' {
      RoutedUnfold(s, personal);
      RoutedTook(s, u, ParseRoute(u, "", ""), personal);
    } else {
      UnroutedUnfold(s, personal);
      UnroutedTook(s, u, personal);
    }
  }

  ghost predicate ShortOrSame(s: string, r: Mail, personal: Option<string>)
    requires r.Mail? && r.addr.mailbox.Some?
  {
    var mb, j := r.addr.mailbox.value, |s| - |r.rest| - 1;
    && 0 <= j < |s| && s[j] == '>' && r.rest == s[j + 1..] && |mb| <= j
    && (|mb| == j ==> mb == s[..j] && AngleMailbox(mb) && r.addr.personal == personal)
  }

  ghost predicate EndsAngle(m: Mail, r: Mail) {
    m.Mail? && m.rest != "" && m.rest[0] == '>' && r == Mail(m.rest[1..], m.addr, m.comment)
  }

  lemma RoutedUnfold(s: string, personal: Option<string>)
    requires RouteAddr(s, "", personal).Mail? && SkipWsp(s) != "" && SkipWsp(s)[0] == '@'
    ensures var route := ParseRoute(SkipWsp(s), "", "");
      && route.Parts? && route.rest != "" && route.rest[0] == ':' && |route.mailbox| <= MAX && |route.comment| <= MAX
      && EndsAngle(ParseAddress(route.rest[1..], Put(route.mailbox, ":"), route.comment, personal), RouteAddr(s, "", personal))
  {
    hide ParseAddress, ParseRoute, Put, SkipWsp;
  }

  lemma UnroutedUnfold(s: string, personal: Option<string>)
    requires RouteAddr(s, "", personal).Mail? && !(SkipWsp(s) != "" && SkipWsp(s)[0] == '@')
    ensures EndsAngle(ParseAddress(SkipWsp(s), "", "", personal), RouteAddr(s, "", personal))
  {
    hide ParseAddress, ParseRoute, SkipWsp;
  }

  lemma RoutedTook(s: string, u: string, route: Parts, personal: Option<string>)
    requires u == SkipWsp(s) && u != "" && u[0] == '@' && route == ParseRoute(u, "", "")
    requires RouteAddr(s, "", personal).Mail?
    requires route.Parts? && route.rest != "" && route.rest[0] == ':' && |route.mailbox| <= MAX && |route.comment| <= MAX
    requires EndsAngle(ParseAddress(route.rest[1..], Put(route.mailbox, ":"), route.comment, personal), RouteAddr(s, "", personal))
    ensures ShortOrSame(s, RouteAddr(s, "", personal), personal)
  {
    hide *;
    var x, v := route.rest[1..], Put(route.mailbox, ":");
    var m := ParseAddress(x, v, route.comment, personal);
    EndsIs(m, RouteAddr(s, "", personal));
    var mb := m.addr.mailbox.value;
    RouteTook(u, "", "");
    SpecTook(x, v, route.comment, personal);
    RoutedAll(u, route.rest, route.mailbox, m.rest, mb);
    RoutedOK(u, route.rest, x, m.rest);
    Between(s, u, m, personal, RouteAddr(s, "", personal));
  }

  lemma EndsIs(m: Mail, r: Mail)
    requires EndsAngle(m, r)
    ensures m.Mail? && m.rest != "" && m.rest[0] == '>' && r == Mail(m.rest[1..], m.addr, m.comment) && m.addr.mailbox.Some? == r.addr.mailbox.Some?
  {
  }

  lemma RoutedAll(u: string, v: string, mb0: string, rest: string, mb: string)
    requires Took(u, v, "", mb0) && v != "" && v[0] == ':' && |mb0| <= MAX && Took(v[1..], rest, Put(mb0, ":"), mb)
    ensures v == u[|u| - |v|..] && rest == v[1..][|v[1..]| - |rest|..] && |rest| <= |v[1..]| && |v| <= |u|
    ensures Took(u, rest, "", mb)
    ensures |mb| == |u| - |rest| ==> |mb0| == |u| - |v| && |mb| == |Put(mb0, ":")| + |v[1..]| - |rest|
  {
    hide Put;
    TookIs(u, v, "", mb0);
    TookIs(v[1..], rest, Put(mb0, ":"), mb);
    hide Took;
    ColonTook(v, mb0);
    TookMore(v, v[1..], mb0, Put(mb0, ":"), rest, mb);
    TookMore(u, v, "", mb0, rest, mb);
  }

  // Up to the closing bracket.
  lemma Between(s: string, u: string, m: Mail, personal: Option<string>, r: Mail)
    requires u == SkipWsp(s) && EndsAngle(m, r) && m.addr.mailbox.Some? && Took(u, m.rest, "", m.addr.mailbox.value)
    requires |m.addr.mailbox.value| == |u| - |m.rest| ==> AngleMailbox(u[..|u| - |m.rest|]) && m.addr.personal == personal
    ensures r.Mail? && r.addr.mailbox.Some? && ShortOrSame(s, r, personal)
  {
    hide Took, AngleMailbox, SkipWsp;
    var mb := m.addr.mailbox.value;
    BlanksTook(s, "");
    TookMore(s, u, "", "", m.rest, mb);
    AngleEnds(s, m.rest, mb);
    if |mb| == |s| - |m.rest| { TookSame(s, u, m.rest, mb); }
  }

  lemma UnroutedTook(s: string, u: string, personal: Option<string>)
    requires u == SkipWsp(s) && !(u != "" && u[0] == '@') && RouteAddr(s, "", personal).Mail?
    requires EndsAngle(ParseAddress(u, "", "", personal), RouteAddr(s, "", personal))
    ensures ShortOrSame(s, RouteAddr(s, "", personal), personal)
  {
    hide *;
    var m := ParseAddress(u, "", "", personal);
    EndsIs(m, RouteAddr(s, "", personal));
    SpecTook(u, "", "", personal);
    TookIs(u, m.rest, "", m.addr.mailbox.value);
    PlainOK(u, m.rest);
    Between(s, u, m, personal, RouteAddr(s, "", personal));
  }

  lemma TookIs(s: string, rest: string, t: string, text: string)
    requires Took(s, rest, t, text)
    ensures |rest| <= |s| && rest == s[|s| - |rest|..]
  {
  }

  // As much as was there: then no blanks were skipped.
  lemma TookSame(s: string, u: string, rest: string, mb: string)
    requires u == SkipWsp(s) && Took(u, rest, "", mb) && |mb| == |s| - |rest|
    ensures u == s
  {
    BlanksTook(s, "");
  }

  lemma ColonTook(s: string, t: string)
    requires s != "" && s[0] == ':' && |t| <= MAX
    ensures Took(s, s[1..], t, Put(t, ":")) && s[..|s| - |s[1..]|] == ":"
  {
    OneTook(s, t);
    assert [':'] == ":";
  }

  lemma AngleEnds(s: string, rest: string, mb: string)
    requires Took(s, rest, "", mb) && rest != "" && rest[0] == '>'
    ensures var j := |s| - |rest|; 0 <= j < |s| && s[j] == '>' && rest[1..] == s[j + 1..] && |mb| <= j && (|mb| == j ==> mb == s[..j])
  {
    assert "" + s[..|s| - |rest|] == s[..|s| - |rest|];
    assert s[|s| - |rest|..][0] == rest[0];
  }

  lemma RoutedOK(u: string, v: string, x: string, rest: string)
    requires u != "" && u[0] == '@' && v != "" && v[0] == ':' && x == v[1..] && |v| <= |u| && v == u[|u| - |v|..]
    requires |rest| <= |x| && rest == x[|x| - |rest|..]
    ensures RouteOnly(u[..|u| - |v|]) && SpecOK(x[..|x| - |rest|]) ==> AngleMailbox(u[..|u| - |rest|])
  {
    var r, b := u[..|u| - |v|], x[..|x| - |rest|];
    var m := u[..|u| - |rest|];
    assert u[|r|..][0] == ':' && |r| > 0;
    assert m[|r|] == ':' && m[..|r|] == r && m[0] == '@' && r[0] == '@';
    assert m[|r| + 1..] == b;
  }

  lemma PlainOK(u: string, rest: string)
    requires (u == "" || u[0] != '@') && |rest| <= |u|
    ensures SpecOK(u[..|u| - |rest|]) ==> AngleMailbox(u[..|u| - |rest|])
  {
  }
}
