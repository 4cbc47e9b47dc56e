// mutt_addrlist_parse.
module AddressListParser {
  import opened Wrappers
  import opened AddressSyntax
  import opened AddressParser

  class AddressList {
    var items: seq<Address>

    constructor ()
      ensures items == []
    {
      items := [];
    }
  }

  // The list, the buffers and the count hold the state st.
  ghost predicate InState(al: AddressList, phrase: Buffer, comment: Buffer, parsed: nat, st: State)
    reads al, phrase, phrase.data, comment, comment.data
  {
    al.items == st.al && Holds(phrase, st.phrase) && Holds(comment, st.comment) && parsed == st.parsed && StateOK(st)
  }

  // The result of one turn: the position, -1 for a malformed string.
  ghost predicate Turned(s: string, i: int, al: AddressList, phrase: Buffer, comment: Buffer, parsed: nat, r: Option<(string, State)>)
    reads al, phrase, phrase.data, comment, comment.data
  {
    if r.None? then i == -1
    else 0 <= i <= |s| && s[i..] == r.value.0 && InState(al, phrase, comment, parsed, r.value.1)
  }

  method Reset(b: Buffer, ghost t: string)
    requires Holds(b, t)
    modifies b
    ensures Holds(b, "")
  {
    b.len := 0;
  }

  lemma StateSizes(al: AddressList, phrase: Buffer, comment: Buffer, parsed: nat, st: State)
    requires InState(al, phrase, comment, parsed, st)
    ensures |st.phrase| <= MAX && |st.comment| <= MAX && StateOK(st) && al.items == st.al && parsed == st.parsed
    ensures Holds(phrase, st.phrase) && Holds(comment, st.comment)
    ensures (phrase.len == 0 <==> st.phrase == "") && (comment.len == 0 <==> st.comment == "")
  {
  }

  lemma IsInState(al: AddressList, phrase: Buffer, comment: Buffer, parsed: nat, st: State)
    requires al.items == st.al && Holds(phrase, st.phrase) && Holds(comment, st.comment) && parsed == st.parsed
    ensures InState(al, phrase, comment, parsed, st)
  {
  }

  // The phrase becomes an address.
  method AddPhraseAt(al: AddressList, phrase: Buffer, comment: Buffer, parsed0: nat, ghost st: State) returns (parsed: nat)
    requires Apart(phrase, comment) && InState(al, phrase, comment, parsed0, st)
    modifies al, phrase.data, comment, comment.data
    ensures al.items == AddPhrase(st).al && parsed == AddPhrase(st).parsed && Holds(phrase, st.phrase) && comment.data.Length == 1024
  {
    hide Holds, AddrSpec;
    StateSizes(al, phrase, comment, parsed0, st);
    parsed := parsed0;
    var text := Text(phrase, st.phrase);
    var ok, a := ParseAddrSpec(text, comment, st.comment);
    if ok {
      al.items := al.items + [a];
      parsed := parsed + 1;
    }
    BufferSize(phrase, st.phrase);
  }

  lemma BufferSize(b: Buffer, t: string)
    requires Holds(b, t)
    ensures b.data.Length == 1024
  {
  }

  // The comment names the last address.
  method NameLastAt(al: AddressList, comment: Buffer, atEnd: bool, ghost st: State)
    requires Holds(comment, st.comment) && al.items == st.al
    modifies al, comment.data
    ensures al.items == if atEnd then NameLastAtEnd(st.al, st.comment) else NameLast(st.al, st.comment)
    ensures comment.data.Length == 1024
  {
    BufferSize(comment, st.comment);
    if |al.items| == 0 {
      return;
    }
    var last := al.items[|al.items| - 1];
    var wanted := if atEnd then last.personal == Some("") else last.personal.None?;
    if wanted && last.mailbox.Some? && last.mailbox.value != "" {
      var text := Text(comment, st.comment);
      al.items := al.items[..|al.items| - 1] + [last.(personal := Some(text))];
    }
  }

  method EmptyBuffer(b: Buffer)
    requires b.data.Length == 1024
    modifies b
    ensures Holds(b, "")
  {
    b.len := 0;
  }

  // case ';' and ','
  method SeparatorAt(s: string, i: nat, al: AddressList, phrase: Buffer, comment: Buffer, parsed0: nat, ghost st: State) returns (parsed: nat)
    requires i < |s| && Apart(phrase, comment) && InState(al, phrase, comment, parsed0, st)
    modifies al, phrase, phrase.data, comment, comment.data
    ensures InState(al, phrase, comment, parsed, Separator(s[i], st))
  {
    hide Holds, AddPhrase, NameLast, InState;
    StateSizes(al, phrase, comment, parsed0, st);
    BufferSize(phrase, st.phrase);
    BufferSize(comment, st.comment);
    parsed := parsed0;
    if phrase.len != 0 {
      parsed := AddPhraseAt(al, phrase, comment, parsed, st);
    } else if comment.len != 0 {
      NameLastAt(al, comment, false, st);
    }
    if s[i] == ';' {
      al.items := al.items + [TERMINATOR];
    }
    EmptyBuffer(phrase);
    EmptyBuffer(comment);
    IsInState(al, phrase, comment, parsed, Separator(s[i], st));
  }

  // case '(' and '"', and the words of a phrase
  method WordAt(s: string, i0: nat, pending: bool, phrase: Buffer, ghost p0: string) returns (i: int)
    requires i0 < |s| && !IsWsp(s[i0]) && Holds(phrase, p0) && |p0| <= MAX
    modifies phrase, phrase.data
    ensures Scanned(s, i, phrase, Piece(s[i0..], pending, p0))
  {
    hide Holds, NextToken, Put, Spaced;
    i := i0;
    ghost var p := p0;
    if pending {
      AddBlank(phrase, p0);
      p := Spaced(p0);
    }
    HoldsLess(phrase, p);
    assert s[i0..][1..] == s[i0 + 1..];
    if s[i] == '\\' {
      i := i + 1;
      if i < |s| && phrase.len < MAX {
        assert s[i0..][2..] == s[i0 + 2..];
        AddChar(phrase, s[i], p);
        p := Put(p, [s[i]]);
        i := i + 1;
      }
    }
    i := NextTokenAt(s, i, phrase, p);
  }

  lemma HoldsLess(b: Buffer, t: string)
    requires Holds(b, t)
    ensures b.len < MAX <==> |t| < MAX
  {
  }

  // case '<'
  method AngleAt(s: string, i0: nat, al: AddressList, phrase: Buffer, comment: Buffer, parsed0: nat, ghost st: State)
      returns (i: int, parsed: nat)
    requires i0 < |s| && s[i0] == '<' && Apart(phrase, comment) && InState(al, phrase, comment, parsed0, st)
    modifies al, phrase, phrase.data, comment, comment.data
    ensures var m := RouteAddr(s[i0 + 1..], st.comment, if st.phrase != "" then Some(st.phrase) else None);
      if m.NoMail? then i == -1
      else 0 <= i <= |s| && s[i..] == m.rest && InState(al, phrase, comment, parsed, State(st.al + [m.addr], "", "", st.parsed + 1))
  {
    hide Holds, RouteAddr, InState;
    StateSizes(al, phrase, comment, parsed0, st);
    parsed := parsed0;
    var name: Option<string> := None;
    ghost var p, c := st.phrase, st.comment;
    if phrase.len != 0 {
      var text := Text(phrase, p);
      name := Some(text);
    }
    var a;
    i, a := ParseRouteAddr(s, i0 + 1, comment, name, c);
    if i == -1 {
      return;
    }
    ghost var m := RouteAddr(s[i0 + 1..], c, name);
    al.items := al.items + [a];
    Reset(phrase, p);
    Reset(comment, m.comment);
    parsed := parsed + 1;
    IsInState(al, phrase, comment, parsed, State(st.al + [m.addr], "", "", st.parsed + 1));
  }

  // case ':'
  method ColonAt(al: AddressList, phrase: Buffer, comment: Buffer, parsed: nat, ghost st: State)
    requires Apart(phrase, comment) && InState(al, phrase, comment, parsed, st)
    modifies al, phrase, phrase.data, comment, comment.data
    ensures InState(al, phrase, comment, parsed,
                    State(st.al + [Address(None, if st.phrase != "" then Some(st.phrase) else None, true)], "", "", st.parsed))
  {
    hide Holds, InState;
    StateSizes(al, phrase, comment, parsed, st);
    var mailbox: Option<string> := None;
    if phrase.len != 0 {
      var text := Text(phrase, st.phrase);
      mailbox := Some(text);
    }
    al.items := al.items + [Address(None, mailbox, true)];
    Reset(phrase, st.phrase);
    Reset(comment, st.comment);
    IsInState(al, phrase, comment, parsed, State(st.al + [Address(None, mailbox, true)], "", "", st.parsed));
  }

  // The switch.
  method TurnAt(s: string, i0: nat, pending: bool, al: AddressList, phrase: Buffer, comment: Buffer, parsed0: nat, ghost st: State)
      returns (i: int, parsed: nat)
    requires i0 < |s| && !IsWsp(s[i0]) && Apart(phrase, comment) && InState(al, phrase, comment, parsed0, st)
    modifies al, phrase, phrase.data, comment, comment.data
    ensures Turned(s, i, al, phrase, comment, parsed, Turn(s[i0..], pending, st))
  {
    hide Holds, Separator, NextToken, Quote, Piece, RouteAddr, Spaced, InState;
    StateSizes(al, phrase, comment, parsed0, st);
    assert s[i0..][0] == s[i0] && s[i0..][1..] == s[i0 + 1..];
    i, parsed := i0, parsed0;
    if s[i] == ';' || s[i] == ',' {
      parsed := SeparatorAt(s, i, al, phrase, comment, parsed, st);
      i := i + 1;
    } else if s[i] == '(' {
      AddBlank(comment, st.comment);
      i := NextTokenAt(s, i, comment, Spaced(st.comment));
      if i != -1 {
        IsInState(al, phrase, comment, parsed, st.(comment := NextToken(s[i0..], Spaced(st.comment)).text));
      }
    } else if s[i] == '"' {
      AddBlank(phrase, st.phrase);
      i := ParseQuote(s, i + 1, phrase, Spaced(st.phrase));
      if i != -1 {
        IsInState(al, phrase, comment, parsed, st.(phrase := Quote(s[i0 + 1..], Spaced(st.phrase)).text));
      }
    } else if s[i] == ':' {
      ColonAt(al, phrase, comment, parsed, st);
      i := i + 1;
    } else if s[i] == '<' {
      i, parsed := AngleAt(s, i, al, phrase, comment, parsed, st);
    } else {
      i := WordAt(s, i, pending, phrase, st.phrase);
      if i != -1 {
        IsInState(al, phrase, comment, parsed, st.(phrase := Piece(s[i0..], pending, st.phrase).text));
      }
    }
  }

  // What Run does from the non-blank u on.
  ghost function RunFrom(u: string, pending: bool, st: State): Result
    requires StateOK(st) && (u != "" ==> !IsWsp(u[0]))
  {
    if u == "" then Finish(st)
    else
      var r := Turn(u, pending, st);
      if r.None? then Result([], 0) else Run(r.value.0, r.value.1)
  }

  lemma RunIs(s: string, st: State)
    requires StateOK(st)
    ensures Run(s, st) == RunFrom(SkipWsp(s), SkipWsp(s) != s, st)
  {
    hide Turn, Finish;
  }

  lemma SkipFirst(s: string)
    ensures SkipWsp(s) != s <==> s != "" && IsWsp(s[0])
  {
  }

  method Parse(al: AddressList, s: string) returns (parsed: nat)
    modifies al
    ensures al.items == AddressSyntax.Parse(old(al.items), s).al && parsed == AddressSyntax.Parse(old(al.items), s).parsed
  {
    hide Holds, Turn, Run, RunFrom, Finish, InState, SkipWsp;
    parsed := 0;
    var comment := new Buffer();
    var phrase := new Buffer();
    ghost var st := State(al.items, "", "", 0);
    ghost var total := Run(s, st);
    IsInState(al, phrase, comment, parsed, st);
    assert s[0..] == s;
    SkipFirst(s);
    RunIs(s, st);
    var pending := s != "" && IsWsp(s[0]);
    var i: int := Skip(s, 0);
    SkipEnds(s, i);
    while i < |s|
      invariant 0 <= i <= |s| && (i < |s| ==> !IsWsp(s[i])) && StateOK(st)
      invariant InState(al, phrase, comment, parsed, st) && RunFrom(s[i..], pending, st) == total
      decreases |s| - i
    {
      var at := i;
      TurnMoves(s, i, pending, st);
      i, parsed := TurnAt(s, i, pending, al, phrase, comment, parsed, st);
      RunTurn(s, at, pending, st);
      if i == -1 {
        al.items := [];
        return 0;
      }
      st := Turn(s[at..], pending, st).value.1;
      SkipFirst(s[i..]);
      RunIs(s[i..], st);
      pending := i < |s| && IsWsp(s[i]);
      i := Skip(s, i);
      SkipEnds(s, i);
    }
    RunEnd(s[i..], pending, st);
    parsed := FinishAt(al, phrase, comment, parsed, st);
  }

  lemma TurnMoves(s: string, i: nat, pending: bool, st: State)
    requires i < |s| && !IsWsp(s[i]) && StateOK(st)
    ensures var r := Turn(s[i..], pending, st); r.Some? ==> |r.value.0| < |s| - i && StateOK(r.value.1)
  {
    hide Turn;
  }

  lemma RunTurn(s: string, i: nat, pending: bool, st: State)
    requires i < |s| && !IsWsp(s[i]) && StateOK(st)
    ensures var r := Turn(s[i..], pending, st); RunFrom(s[i..], pending, st) == if r.None? then Result([], 0) else Run(r.value.0, r.value.1)
  {
    hide Turn, Run;
  }

  lemma RunEnd(u: string, pending: bool, st: State)
    requires u == "" && StateOK(st)
    ensures RunFrom(u, pending, st) == Finish(st)
  {
  }

  // After the loop.
  method FinishAt(al: AddressList, phrase: Buffer, comment: Buffer, parsed0: nat, ghost st: State) returns (parsed: nat)
    requires Apart(phrase, comment) && InState(al, phrase, comment, parsed0, st)
    modifies al, phrase, phrase.data, comment, comment.data
    ensures al.items == Finish(st).al && parsed == Finish(st).parsed
  {
    hide Holds, AddPhrase, NameLastAtEnd, InState;
    StateSizes(al, phrase, comment, parsed0, st);
    parsed := parsed0;
    if phrase.len != 0 {
      parsed := AddPhraseAt(al, phrase, comment, parsed, st);
    } else if comment.len != 0 {
      NameLastAt(al, comment, true, st);
    }
  }
}
