// address/address.c: the address parser, with its cursor and its fixed buffers.
module AddressParser {
  import opened Wrappers
  import opened AddressSyntax

  // char token[1024] and size_t tokenlen.  The length goes on counting what parse_quote cannot store.
  class Buffer {
    const data: array<char>
    var len: nat

    constructor ()
      ensures fresh(data) && Holds(this, "")
    {
      data := new char[1024];
      len := 0;
    }
  }

  ghost predicate Holds(b: Buffer, t: string)
    reads b, b.data
  {
    && b.data.Length == 1024 && |t| <= MAX
    && (forall k :: 0 <= k < |t| ==> b.data[k] == t[k])
    && (b.len == |t| || (|t| == MAX && b.len >= MAX))
  }

  ghost predicate Apart(a: Buffer, b: Buffer) {
    a != b && a.data != b.data
  }

  // if (*len < max) buf[(*len)++] = c
  method AddChar(b: Buffer, c: char, ghost t: string)
    requires Holds(b, t)
    modifies b, b.data
    ensures Holds(b, Put(t, [c]))
  {
    if b.len < MAX {
      b.data[b.len] := c;
      b.len := b.len + 1;
    }
  }

  // if (len && len < max) buf[len++] = ' '
  method AddBlank(b: Buffer, ghost t: string)
    requires Holds(b, t)
    modifies b, b.data
    ensures Holds(b, Spaced(t))
  {
    if b.len != 0 && b.len < MAX {
      b.data[b.len] := ' ';
      b.len := b.len + 1;
    }
  }

  // terminate_string, and the C string in the buffer.
  method Text(b: Buffer, ghost t: string) returns (text: string)
    requires Holds(b, t)
    modifies b.data
    ensures text == t && Holds(b, t)
  {
    var end := if b.len < MAX then b.len else MAX;
    b.data[end] := '\0';
    text := b.data[..end];
  }

  lemma HoldsSize(b: Buffer, t: string)
    requires Holds(b, t)
    ensures |t| <= MAX && (b.len == 0 <==> t == "")
  {
  }

  // What a scanning function returns: the new position, -1 for NULL.
  ghost predicate Scanned(s: string, i: int, b: Buffer, r: Scan)
    reads b, b.data
  {
    if r.Fail? then i == -1 else 0 <= i <= |s| && s[i..] == r.rest && Holds(b, r.text)
  }

  lemma CommentStep(s: string, i: nat, level: nat, t: string)
    requires i < |s| && level > 0 && |t| <= MAX
    ensures Comment(s[i..], level, t) ==
      if s[i] == '(' then Comment(s[i + 1..], level + 1, Put(t, [s[i]]))
      else if s[i] == ')' then if level == 1 then Done(s[i + 1..], t) else Comment(s[i + 1..], level - 1, Put(t, [s[i]]))
      else if s[i] == '\\' then if i + 1 == |s| then Fail else Comment(s[i + 2..], level, Put(t, [s[i + 1]]))
      else Comment(s[i + 1..], level, Put(t, [s[i]]))
  {
    assert s[i..][1..] == s[i + 1..];
    if i + 1 < |s| { assert s[i..][2..] == s[i + 2..]; }
  }

  method ParseComment(s: string, i0: nat, b: Buffer, ghost t0: string) returns (i: int)
    requires i0 <= |s| && Holds(b, t0)
    modifies b, b.data
    ensures Scanned(s, i, b, Comment(s[i0..], 1, t0))
  {
    hide Comment, Put, Holds;
    HoldsSize(b, t0);
    i := i0;
    var level := 1;
    ghost var t := t0;
    while i < |s|
      invariant 0 <= i <= |s| && level > 0 && |t| <= MAX && Holds(b, t)
      invariant Comment(s[i..], level, t) == Comment(s[i0..], 1, t0)
    {
      CommentStep(s, i, level, t);
      if s[i] == '(' {
        level := level + 1;
      } else if s[i] == ')' {
        level := level - 1;
        if level == 0 {
          i := i + 1;
          return;
        }
      } else if s[i] == '\\' {
        i := i + 1;
        if i == |s| {
          break;
        }
      }
      AddChar(b, s[i], t);
      t := Put(t, [s[i]]);
      i := i + 1;
    }
    CommentEnd(s, i, level, t);
    i := -1;
  }

  lemma CommentEnd(s: string, i: nat, level: nat, t: string)
    requires level > 0 && |t| <= MAX && i == |s|
    ensures Comment(s[i..], level, t).Fail?
  {
  }

  lemma QuoteStep(s: string, i: nat, t: string)
    requires i < |s| && |t| <= MAX
    ensures Quote(s[i..], t) ==
      if s[i] == '\\' then if i + 1 == |s| then Fail else Quote(s[i + 2..], Put(t, [s[i + 1]]))
      else if s[i] == '"' then Done(s[i + 1..], t)
      else Quote(s[i + 1..], Put(t, [s[i]]))
  {
    assert s[i..][1..] == s[i + 1..];
    if i + 1 < |s| { assert s[i..][2..] == s[i + 2..]; }
  }

  // The character is stored before it is known to be wanted.
  method StoreChar(b: Buffer, c: char, ghost t: string)
    requires Holds(b, t)
    modifies b.data
    ensures Holds(b, t) && (b.len < MAX ==> b.data[b.len] == c)
  {
    if b.len < MAX {
      b.data[b.len] := c;
    }
  }

  method CountChar(b: Buffer, c: char, ghost t: string)
    requires Holds(b, t) && (b.len < MAX ==> b.data[b.len] == c)
    modifies b
    ensures Holds(b, Put(t, [c]))
  {
    b.len := b.len + 1;
  }

  method ParseQuote(s: string, i0: nat, b: Buffer, ghost t0: string) returns (i: int)
    requires i0 <= |s| && Holds(b, t0)
    modifies b, b.data
    ensures Scanned(s, i, b, Quote(s[i0..], t0))
  {
    hide Quote, Put, Holds;
    HoldsSize(b, t0);
    i := i0;
    ghost var t := t0;
    while i < |s|
      invariant 0 <= i <= |s| && |t| <= MAX && Holds(b, t)
      invariant Quote(s[i..], t) == Quote(s[i0..], t0)
    {
      QuoteStep(s, i, t);
      StoreChar(b, s[i], t);
      if s[i] == '\\' {
        i := i + 1;
        if i == |s| {
          break;
        }
        StoreChar(b, s[i], t);
      } else if s[i] == '"' {
        i := i + 1;
        return;
      }
      CountChar(b, s[i], t);
      t := Put(t, [s[i]]);
      i := i + 1;
    }
    QuoteEnd(s, i, t);
    i := -1;
  }

  lemma QuoteEnd(s: string, i: nat, t: string)
    requires |t| <= MAX && i == |s|
    ensures Quote(s[i..], t).Fail?
  {
  }

  lemma AtomStep(s: string, i: nat, t: string)
    requires i < |s| && |t| <= MAX
    ensures Atom(s[i..], t) == if InAtom(s[i]) then Atom(s[i + 1..], Put(t, [s[i]])) else Done(s[i..], t)
  {
    assert s[i..][1..] == s[i + 1..];
  }

  lemma AtomEnd(s: string, i: nat, t: string)
    requires |t| <= MAX && i == |s|
    ensures Atom(s[i..], t) == Done(s[i..], t)
  {
  }

  lemma TokenIs(s: string, i: nat, t: string)
    requires i <= |s| && |t| <= MAX
    ensures NextToken(s[i..], t) ==
      if i < |s| && s[i] == '(' then Comment(s[i + 1..], 1, t)
      else if i < |s| && s[i] == '"' then Quote(s[i + 1..], t)
      else if i < |s| && IsSpecial(s[i]) then Done(s[i + 1..], Put(t, [s[i]]))
      else Atom(s[i..], t)
  {
    if i < |s| { assert s[i..][1..] == s[i + 1..]; }
  }

  method NextTokenAt(s: string, i0: nat, b: Buffer, ghost t0: string) returns (i: int)
    requires i0 <= |s| && Holds(b, t0)
    modifies b, b.data
    ensures Scanned(s, i, b, NextToken(s[i0..], t0))
  {
    hide NextToken, Comment, Quote, Atom, Put, Holds;
    HoldsSize(b, t0);
    TokenIs(s, i0, t0);
    i := i0;
    if i < |s| && s[i] == '(' {
      i := ParseComment(s, i + 1, b, t0);
      return;
    }
    if i < |s| && s[i] == '"' {
      i := ParseQuote(s, i + 1, b, t0);
      return;
    }
    if i < |s| && IsSpecial(s[i]) {
      AddChar(b, s[i], t0);
      return i + 1;
    }
    ghost var t := t0;
    while i < |s|
      invariant 0 <= i <= |s| && |t| <= MAX && Holds(b, t)
      invariant Atom(s[i..], t) == Atom(s[i0..], t0)
    {
      AtomStep(s, i, t);
      if IsWsp(s[i]) || IsSpecial(s[i]) {
        return;
      }
      AddChar(b, s[i], t);
      t := Put(t, [s[i]]);
      i := i + 1;
    }
    AtomEnd(s, i, t);
  }

  // mutt_str_skip_email_wsp
  method Skip(s: string, i0: nat) returns (i: nat)
    requires i0 <= |s|
    ensures i0 <= i <= |s| && s[i..] == SkipWsp(s[i0..])
    ensures i > i0 <==> SkipWsp(s[i0..]) != s[i0..]
  {
    i := i0;
    while i < |s| && IsWsp(s[i])
      invariant i0 <= i <= |s| && SkipWsp(s[i..]) == SkipWsp(s[i0..])
    {
      assert s[i..][1..] == s[i + 1..];
      i := i + 1;
    }
  }

  // What the functions for the parts of an address return.
  ghost predicate ScannedParts(s: string, i: int, b: Buffer, c: Buffer, r: Parts)
    reads b, b.data, c, c.data
  {
    if r.Bad? then i == -1 else 0 <= i <= |s| && s[i..] == r.rest && Holds(b, r.mailbox) && Holds(c, r.comment)
  }

  lemma PartsStep(s: string, i: nat, part: Part, m: string, c: string)
    requires i <= |s| && |m| <= MAX && |c| <= MAX && (i < |s| ==> !IsWsp(s[i]))
    ensures MailboxDomain(s[i..], part, m, c) ==
      if i == |s| || Ends(s[i], part) then Parts(s[i..], m, c)
      else if s[i] == '(' then
        (var n := NextToken(s[i..], Spaced(c)); if n.Fail? then Bad else MailboxDomain(n.rest, part, m, n.text))
      else
        (var n := NextToken(s[i..], m); if n.Fail? then Bad else MailboxDomain(n.rest, part, n.text, c))
  {
    hide NextToken, Spaced, Ends;
    assert SkipWsp(s[i..]) == s[i..];
  }

  lemma PartsSkip(s: string, part: Part, m: string, c: string)
    requires |m| <= MAX && |c| <= MAX
    ensures MailboxDomain(s, part, m, c) == MailboxDomain(SkipWsp(s), part, m, c)
  {
    hide NextToken, Spaced, Ends;
    var u := SkipWsp(s);
    assert SkipWsp(u) == u;
  }

  lemma TokenMoves(s: string, i: nat, t: string)
    requires i < |s| && !IsWsp(s[i]) && |t| <= MAX
    ensures NextToken(s[i..], t).Done? ==> |NextToken(s[i..], t).rest| < |s| - i
  {
  }

  method ParseMailboxDomain(s: string, i0: nat, part: Part, b: Buffer, c: Buffer, ghost m0: string, ghost c0: string) returns (i: int)
    requires i0 <= |s| && Apart(b, c) && Holds(b, m0) && Holds(c, c0)
    modifies b, b.data, c, c.data
    ensures ScannedParts(s, i, b, c, MailboxDomain(s[i0..], part, m0, c0))
  {
    hide MailboxDomain, NextToken, Spaced, Ends, IsWsp, Holds, SkipWsp;
    HoldsSize(b, m0);
    HoldsSize(c, c0);
    i := i0;
    ghost var m, co := m0, c0;
    while i < |s|
      invariant 0 <= i <= |s| && |m| <= MAX && |co| <= MAX && Holds(b, m) && Holds(c, co)
      invariant MailboxDomain(s[i..], part, m, co) == MailboxDomain(s[i0..], part, m0, c0)
      decreases |s| - i
    {
      PartsSkip(s[i..], part, m, co);
      i := Skip(s, i);
      SkipEnds(s, i);
      PartsStep(s, i, part, m, co);
      if i == |s| || Ends(s[i], part) {
        return;
      }
      TokenMoves(s, i, m);
      TokenMoves(s, i, Spaced(co));
      var ps;
      if s[i] == '(' {
        AddBlank(c, co);
        ps := NextTokenAt(s, i, c, Spaced(co));
        if ps == -1 {
          return -1;
        }
        co := NextToken(s[i..], Spaced(co)).text;
      } else {
        ps := NextTokenAt(s, i, b, m);
        if ps == -1 {
          return -1;
        }
        m := NextToken(s[i..], m).text;
      }
      i := ps;
    }
    PartsEnd(s, i, part, m, co);
  }

  lemma SkipEnds(s: string, i: nat)
    requires i <= |s| && exists j: nat :: j <= |s| && s[i..] == SkipWsp(s[j..])
    ensures i < |s| ==> !IsWsp(s[i])
  {
    var j: nat :| j <= |s| && s[i..] == SkipWsp(s[j..]);
    if i < |s| { assert s[i..][0] == s[i]; }
  }

  lemma PartsEnd(s: string, i: nat, part: Part, m: string, c: string)
    requires i == |s| && |m| <= MAX && |c| <= MAX
    ensures MailboxDomain(s[i..], part, m, c) == Parts(s[i..], m, c)
  {
  }

  // What the functions for a whole address return.
  ghost predicate ScannedMail(s: string, i: int, a: Address, c: Buffer, r: Mail)
    reads c, c.data
  {
    if r.NoMail? then i == -1 else 0 <= i <= |s| && s[i..] == r.rest && a == r.addr && Holds(c, r.comment)
  }

  // parse_address; the personal name is that of the address being filled in.
  method ParseAddressAt(s: string, i0: nat, b: Buffer, c: Buffer, personal: Option<string>, ghost m0: string, ghost c0: string)
      returns (i: int, a: Address)
    requires i0 <= |s| && Apart(b, c) && Holds(b, m0) && Holds(c, c0)
    modifies b, b.data, c, c.data
    ensures ScannedMail(s, i, a, c, ParseAddress(s[i0..], m0, c0, personal))
  {
    hide MailboxDomain, Holds, Put;
    HoldsSize(b, m0);
    HoldsSize(c, c0);
    a := TERMINATOR;
    ghost var r := MailboxDomain(s[i0..], User, m0, c0);
    i := ParseMailboxDomain(s, i0, User, b, c, m0, c0);
    if i == -1 {
      return;
    }
    ghost var all := r;
    if i < |s| && s[i] == '@' {
      AddChar(b, '@', r.mailbox);
      assert r.rest[0] == '@' && r.rest[1..] == s[i + 1..];
      all := MailboxDomain(s[i + 1..], Domain, Put(r.mailbox, "@"), r.comment);
      i := ParseMailboxDomain(s, i + 1, Domain, b, c, Put(r.mailbox, "@"), r.comment);
      if i == -1 {
        return;
      }
    } else {
      assert !(r.rest != "" && r.rest[0] == '@');
    }
    var name := personal;
    var mailbox := Text(b, all.mailbox);
    HoldsSize(c, all.comment);
    if c.len != 0 && personal.None? {
      var text := Text(c, all.comment);
      name := Some(text);
    }
    a := Address(name, Some(mailbox), false);
  }

  lemma RouteStep(s: string, i: nat, m: string, c: string)
    requires i <= |s| && |m| <= MAX && |c| <= MAX
    ensures ParseRoute(s[i..], m, c) ==
      if i < |s| && s[i] == '@' then
        (var r := MailboxDomain(s[i + 1..], Route, Put(m, "@"), c); if r.Bad? then Bad else ParseRoute(r.rest, r.mailbox, r.comment))
      else Parts(s[i..], m, c)
  {
    hide MailboxDomain, Put;
    if i < |s| { assert s[i..][1..] == s[i + 1..]; }
  }

  // The loop over the source route.
  method ParseRouteAt(s: string, i0: nat, b: Buffer, c: Buffer, ghost m0: string, ghost c0: string) returns (i: int)
    requires i0 <= |s| && Apart(b, c) && Holds(b, m0) && Holds(c, c0)
    modifies b, b.data, c, c.data
    ensures ScannedParts(s, i, b, c, ParseRoute(s[i0..], m0, c0))
  {
    hide MailboxDomain, ParseRoute, Holds, Put;
    HoldsSize(b, m0);
    HoldsSize(c, c0);
    i := i0;
    ghost var m, co := m0, c0;
    while i < |s| && s[i] == '@'
      invariant 0 <= i <= |s| && |m| <= MAX && |co| <= MAX && Holds(b, m) && Holds(c, co)
      invariant ParseRoute(s[i..], m, co) == ParseRoute(s[i0..], m0, c0)
      decreases |s| - i
    {
      RouteStep(s, i, m, co);
      AddChar(b, '@', m);
      ghost var r := MailboxDomain(s[i + 1..], Route, Put(m, "@"), co);
      var next := ParseMailboxDomain(s, i + 1, Route, b, c, Put(m, "@"), co);
      if next == -1 {
        return -1;
      }
      i, m, co := next, r.mailbox, r.comment;
    }
    RouteStep(s, i, m, co);
  }

  lemma RouteAddrIs(s: string, i: nat, u: nat, comment: string, personal: Option<string>)
    requires i <= |s| && u <= |s| && s[u..] == SkipWsp(s[i..]) && |comment| <= MAX
    ensures RouteAddr(s[i..], comment, personal) == RouteAddrFrom(s[u..], comment, personal)
  {
  }

  // parse_route_addr without the blanks before it.
  ghost function RouteAddrFrom(u: string, comment: string, personal: Option<string>): Mail
    requires |comment| <= MAX
  {
    if u != "" && u[0] == '@' then
      var route := ParseRoute(u, "", comment);
      if route.Bad? || route.rest == "" || route.rest[0] != ':' then NoMail
      else AngleEnd(ParseAddress(route.rest[1..], Put(route.mailbox, ":"), route.comment, personal))
    else AngleEnd(ParseAddress(u, "", comment, personal))
  }

  ghost function AngleEnd(m: Mail): Mail {
    if m.NoMail? || m.rest == "" || m.rest[0] != '>' then NoMail else Mail(m.rest[1..], m.addr, m.comment)
  }

  method ParseRouteAddr(s: string, i0: nat, c: Buffer, personal: Option<string>, ghost c0: string) returns (i: int, a: Address)
    requires i0 <= |s| && Holds(c, c0)
    modifies c, c.data
    ensures ScannedMail(s, i, a, c, RouteAddr(s[i0..], c0, personal))
  {
    hide ParseAddress, ParseRoute, RouteAddr, Holds, Put, SkipWsp;
    HoldsSize(c, c0);
    a := TERMINATOR;
    var token := new Buffer();
    HoldsSize(token, "");
    var u := Skip(s, i0);
    RouteAddrIs(s, i0, u, c0, personal);
    ghost var m: Mail;
    if u < |s| && s[u] == '@' {
      i, a, m := RouteAndAddress(s, u, token, c, personal, c0);
    } else {
      m := ParseAddress(s[u..], "", c0, personal);
      i, a := ParseAddressAt(s, u, token, c, personal, "", c0);
    }
    if i == -1 || i == |s| || s[i] != '>' {
      return -1, a;
    }
    assert m.rest[1..] == s[i + 1..];
    i := i + 1;
  }

  // The part of it with a route: @domain,...:address
  method RouteAndAddress(s: string, u: nat, token: Buffer, c: Buffer, personal: Option<string>, ghost c0: string)
      returns (i: int, a: Address, ghost m: Mail)
    requires u < |s| && s[u] == '@' && Apart(token, c) && Holds(token, "") && Holds(c, c0)
    modifies token, token.data, c, c.data
    ensures ScannedMail(s, i, a, c, m) && |c0| <= MAX && RouteAddrFrom(s[u..], c0, personal) == AngleEnd(m)
  {
    hide ParseAddress, ParseRoute, Holds, Put;
    HoldsSize(c, c0);
    HoldsSize(token, "");
    a, m := TERMINATOR, NoMail;
    i := ParseRouteAt(s, u, token, c, "", c0);
    ghost var route := ParseRoute(s[u..], "", c0);
    if i == -1 || i == |s| || s[i] != ':' {
      return -1, a, NoMail;
    }
    AddChar(token, ':', route.mailbox);
    HoldsSize(token, Put(route.mailbox, ":"));
    HoldsSize(c, route.comment);
    assert route.rest[1..] == s[i + 1..] && route.rest[0] == ':';
    m := ParseAddress(s[i + 1..], Put(route.mailbox, ":"), route.comment, personal);
    i, a := ParseAddressAt(s, i + 1, token, c, personal, Put(route.mailbox, ":"), route.comment);
  }

  // parse_addr_spec and add_addrspec
  method ParseAddrSpec(phrase: string, c: Buffer, ghost c0: string) returns (ok: bool, a: Address)
    requires Holds(c, c0)
    modifies c, c.data
    ensures ok == AddrSpec(phrase, c0).Mail? && (ok ==> a == AddrSpec(phrase, c0).addr)
  {
    hide ParseAddress, Holds;
    HoldsSize(c, c0);
    var token := new Buffer();
    assert phrase[0..] == phrase;
    var i;
    i, a := ParseAddressAt(phrase, 0, token, c, None, "", c0);
    ok := i != -1 && (i == |phrase| || phrase[i] == ',' || phrase[i] == ';');
  }
}
