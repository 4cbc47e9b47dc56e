// The characters that matter to address/address.c, and the forms in which addresses are written.
module AddressForms {
  import opened Wrappers
  import opened Sequences
  import opened AddressSyntax
  import opened AddressPrinter
  import opened AddressMailbox

  // --- characters ---

  // AddressSpecials, and the masks for the parts of a mailbox.
  lemma SpecialIs(c: char)
    ensures IsSpecial(c) <==> c in "\"(),.:;<>@[\\]"
    ensures Ends(c, User) <==> c in "),:;<>@[]"
    ensures Ends(c, Domain) <==> c in "\"),:;<>@"
    ensures Ends(c, Route) <==> c in "\"):;<>@"
    ensures IsWsp(c) <==> c in " \t\r\n"
    ensures InAtom(c) <==> c !in " \t\r\n\"(),.:;<>@[\\]"
  {
  }

  // What goes beyond 1023 characters is dropped.
  lemma {:induction false} LongAtom(w: string, t: string)
    requires |t| <= 1023 && forall k :: 0 <= k < |w| ==> w[k] !in " \t\r\n\"(),.:;<>@[\\]"
    ensures Atom(w, t) == Done("", if |t + w| <= 1023 then t + w else (t + w)[..1023])
  {
    if w == "" {
      assert t + w == t;
    } else {
      hide InAtom, IsSpecial, IsWsp;
      SpecialIs(w[0]);
      var u := Put(t, [w[0]]);
      LongAtom(w[1..], u);
      hide Atom, Put;
      PutOne(t, w);
    }
  }

  lemma PutOne(t: string, w: string)
    requires |t| <= 1023 && w != ""
    ensures var u := Put(t, [w[0]]);
      (if |u + w[1..]| <= 1023 then u + w[1..] else (u + w[1..])[..1023]) == if |t + w| <= 1023 then t + w else (t + w)[..1023]
  {
    assert (t + [w[0]]) + w[1..] == t + w;
    if |t| == 1023 {
      assert (t + [w[0]])[..1023] == t && (t + w)[..1023] == t && (t + w[1..])[..1023] == t;
      assert w[1..] == "" ==> t + w[1..] == t;
    }
  }

  // --- addresses ---

  // Only quote marks and backslashes are escaped, and only in a name that holds a special character.
  lemma {:induction false} EscapeIs(a: string, c: char, b: string)
    ensures Escape(a + [c] + b) == Escape(a) + (if c == '"' || c == '\\' then ['\\', c] else [c]) + Escape(b)
    ensures '"' !in a && '\\' !in a ==> Escape(a) == a
  {
    hide Escape;
    EscapeStep(a);
    EscapeStep(a + [c] + b);
    if a == "" {
      assert a + [c] + b == [c] + b && ([c] + b)[1..] == b;
    } else {
      assert (a + [c] + b)[1..] == a[1..] + [c] + b && (a + [c] + b)[0] == a[0];
      EscapeIs(a[1..], c, b);
    }
  }

  // A mailbox as it is; the null address @ and a mailbox with a source route have brackets around them.
  lemma PlainIs(m: string)
    requires m != ""
    ensures AddrText(Address(None, Some(m), false)) == if m == "@" then "<>" else if m[0] == '@' then "<" + m + ">" else m
    ensures AddrText(Address(None, None, false)) == ""
  {
    assert m == "@" <==> |m| == 1 && m[0] == '@';
  }

  // A mailbox behind a name, in angle brackets; the name is quoted if it holds a special character.
  lemma NamedIs(p: string, m: string)
    requires m != "" && m != "@"
    ensures AddrText(Address(Some(p), Some(m), false)) ==
      (if exists c :: c in p && c in "\"(),.:;<>@[\\]" then "\"" + Escape(p) + "\"" else p) + " <" + m + ">"
  {
    hide *;
    var a := Address(Some(p), Some(m), false);
    QuotedIff(p);
    RestIs(a);
    RestOf(p, m);
    var name := if exists c :: c in p && c in "\"(),.:;<>@[\\]" then "\"" + Escape(p) + "\"" else p;
    assert (name + " ") + ("<" + m + ">") == name + " <" + m + ">";
  }

  lemma RestOf(p: string, m: string)
    requires m != "" && m != "@"
    ensures RestText(Address(Some(p), Some(m), false)) == "<" + m + ">"
  {
  }

  lemma QuotedIff(p: string)
    ensures NameText(p) == if exists c :: c in p && c in "\"(),.:;<>@[\\]" then "\"" + Escape(p) + "\"" else p
  {
    hide IsSpecial, Escape;
    forall c: char ensures IsSpecial(c) <==> c in "\"(),.:;<>@[\\]" { SpecialIs(c); }
    if c :| c in p && c in "\"(),.:;<>@[\\]" {
      var i :| 0 <= i < |p| && p[i] == c;
      assert HasSpecial(p);
    }
  }

  // --- groups ---

  // A group: its name and a colon, its members with commas between them, a semicolon; the next address is set
  // off by a comma.
  lemma GroupIs(g: string, a: string, b: string, c: string)
    requires g != "" && a != "" && b != "" && c != "" && g[0] != '@' && a[0] != '@' && b[0] != '@' && c[0] != '@'
    ensures ListText([Address(None, Some(g), true), Address(None, Some(a), false), Address(None, Some(b), false), Address(None, None, false), Address(None, Some(c), false)],
                     false, [false, true, false, false, false]) == g + ": " + "\n\t" + a + ", " + b + ";, " + c
  {
    hide *;
    var l4: seq<Address> := [Address(None, Some(c), false)];
    var l3 := [Address(None, None, false)] + l4;
    var l2 := [Address(None, Some(b), false)] + l3;
    var l1 := [Address(None, Some(a), false)] + l2;
    LastText(c);
    EndIs(l4, [false, false]);
    assert [false, false][1..] == [false];
    MemberIs(b, l3, true, [false, false, false]);
    MemberIs(a, l2, true, [true, false, false, false]);
    StartIs(g, l1, [false, true, false, false, false]);
    assert ListText(l3, true, [false, false]) == ";, " + c;
    assert ListText(l2, true, [false, false, false]) == b + (";, " + c);
    assert ListText(l1, true, [true, false, false, false]) == "\n\t" + a + ", " + (b + (";, " + c));
    assert [Address(None, Some(g), true)] + l1 ==
      [Address(None, Some(g), true), Address(None, Some(a), false), Address(None, Some(b), false), Address(None, None, false), Address(None, Some(c), false)];
    Joined(g + ": ", "\n\t" + a + ", ", b, ";, " + c);
    assert g + ": " + ("\n\t" + a + ", ") + b + (";, " + c) == g + ": " + "\n\t" + a + ", " + b + ";, " + c;
  }

  lemma Joined(a: string, b: string, c: string, d: string)
    ensures a + (b + (c + d)) == a + b + c + d
  {
  }

  lemma StartIs(g: string, tail: seq<Address>, breaks: seq<bool>)
    requires g != "" && g[0] != '@' && |breaks| == 1 + |tail| && !breaks[0]
    ensures ListText([Address(None, Some(g), true)] + tail, false, breaks) == g + ": " + ListText(tail, true, breaks[1..])
  {
    hide AddrText, ListText;
    var e := Address(None, Some(g), true);
    TextOf(g, true);
    ListHead(e, tail, false, breaks);
  }

  lemma MemberIs(m: string, tail: seq<Address>, inGroup: bool, breaks: seq<bool>)
    requires m != "" && m[0] != '@' && |breaks| == 1 + |tail|
    ensures ListText([Address(None, Some(m), false)] + tail, inGroup, breaks) ==
      (if breaks[0] then "\n\t" else "") + m + (if tail != [] && (tail[0].mailbox.Some? || tail[0].personal.Some?) then ", " else "") + ListText(tail, inGroup, breaks[1..])
  {
    hide *;
    var e := Address(None, Some(m), false);
    TextOf(m, false);
    ListHead(e, tail, inGroup, breaks);
    AfterMember(e, inGroup, tail);
    assert m + "" == m;
  }

  lemma AfterMember(e: Address, inGroup: bool, tail: seq<Address>)
    requires e.mailbox.Some? && !e.group
    ensures After(e, inGroup, tail) == (if tail != [] && (tail[0].mailbox.Some? || tail[0].personal.Some?) then ", " else "")
    ensures StillInGroup(e, inGroup) == inGroup
  {
  }

  lemma EndIs(tail: seq<Address>, breaks: seq<bool>)
    requires tail != [] && |breaks| == 1 + |tail| && !breaks[0] && tail[0].mailbox.Some?
    ensures ListText([Address(None, None, false)] + tail, true, breaks) == ";, " + ListText(tail, false, breaks[1..])
  {
    hide AddrText, ListText;
    var e: Address := Address(None, None, false);
    TextOf("x", false);
    ListHead(e, tail, true, breaks);
  }

  lemma LastText(m: string)
    requires m != "" && m[0] != '@'
    ensures ListText([Address(None, Some(m), false)], false, [false]) == m
  {
    hide AddrText;
    TextOf(m, false);
  }

  lemma TextOf(m: string, group: bool)
    requires m != "" && m[0] != '@'
    ensures AddrText(Address(None, Some(m), group)) == m + if group then ": " else ""
    ensures AddrText(Address(None, None, false)) == ""
  {
  }

  lemma ListHead(a: Address, tail: seq<Address>, inGroup: bool, breaks: seq<bool>)
    requires |breaks| == 1 + |tail|
    ensures ListText([a] + tail, inGroup, breaks) ==
      (if breaks[0] then "\n\t" else "") + AddrText(a) + After(a, inGroup || a.group, tail) + ListText(tail, StillInGroup(a, inGroup), breaks[1..])
  {
    hide AddrText, After;
    assert ([a] + tail)[1..] == tail;
  }

  // --- malformed lists ---

  lemma {:induction false} CommentOpen(s: string, level: nat, t: string)
    requires level > 0 && |t| <= MAX && ')' !in s
    ensures Comment(s, level, t) == Fail
    decreases |s|
  {
    if s != "" {
      if s[0] == '(' {
        CommentOpen(s[1..], level + 1, Put(t, [s[0]]));
      } else if s[0] == '\\' {
        if |s| > 1 { CommentOpen(s[2..], level, Put(t, [s[1]])); }
      } else {
        CommentOpen(s[1..], level, Put(t, [s[0]]));
      }
    }
  }

  lemma {:induction false} QuoteOpen(s: string, t: string)
    requires |t| <= MAX && '"' !in s
    ensures Quote(s, t) == Fail
    decreases |s|
  {
    if s != "" {
      if s[0] == '\\' {
        if |s| > 1 { QuoteOpen(s[2..], Put(t, [s[1]])); }
      } else {
        QuoteOpen(s[1..], Put(t, [s[0]]));
      }
    }
  }

  // A comment or a quoted string that is not closed empties the list; a separator alone adds nothing but, for a
  // semicolon, the end of a group.
  lemma Unclosed(al: seq<Address>, s: string)
    ensures ')' !in s ==> Parse(al, "(" + s) == Result([], 0)
    ensures '"' !in s ==> Parse(al, "\"" + s) == Result([], 0)
    ensures Parse(al, "") == Result(al, 0) && Parse(al, ",") == Result(al, 0) && Parse(al, ";") == Result(al + [Address(None, None, false)], 0)
  {
    assert ("(" + s)[1..] == s && ("\"" + s)[1..] == s;
    if ')' !in s { CommentOpen(s, 1, ""); }
    if '"' !in s { QuoteOpen(s, ""); }
    assert ","[1..] == "" && ";"[1..] == "";
    assert Run("", State(al, "", "", 0)) == Result(al, 0);
  }

  // A phrase is no address if something is left over behind the mailbox.
  lemma Leftover(m: string, rest: string, comment: string)
    requires SpecOK(m) && |m| <= MAX && |comment| <= MAX && rest != "" && rest[0] == '>'
    ensures AddrSpec(m + rest, comment) == NoMail
  {
    hide ParseAddress, SpecOK;
    TailEnds(rest, m, comment);
    assert "" + m == m;
    SpecRead(m, rest, rest, "", comment, comment, None);
  }

  // In a phrase a backslash takes the next character as it is, together with what comes right behind it.
  lemma EscapedPiece(c: char, w: string, rest: string, st: State)
    requires |st.phrase| + 1 + |w| <= MAX && |st.comment| <= MAX && (forall k :: 0 <= k < |w| ==> InAtom(w[k])) && w != ""
    requires rest != "" && !InAtom(rest[0])
    ensures var phrase := if st.phrase == "" then "" else st.phrase + " ";
      |phrase| + 1 + |w| <= MAX ==> Turn("\\" + [c] + w + rest, true, st) == Some((rest, st.(phrase := phrase + [c] + w)))
  {
    var s := "\\" + [c] + w + rest;
    var phrase := Spaced(st.phrase);
    assert s[0] == '\\' && s[1] == c && s[2..] == w + rest;
    if |phrase| + 1 + |w| <= MAX {
      AtomAll(w, rest, phrase + [c]);
      hide Atom;
      assert (w + rest)[0] == w[0];
    }
  }

  lemma {:induction false} AtomAll(w: string, rest: string, t: string)
    requires |t| + |w| <= MAX && (forall k :: 0 <= k < |w| ==> InAtom(w[k])) && rest != "" && !InAtom(rest[0])
    ensures Atom(w + rest, t) == Done(rest, t + w)
  {
    hide InAtom;
    if w == "" {
      assert w + rest == rest && t + w == t;
    } else {
      assert (w + rest)[1..] == w[1..] + rest && (w + rest)[0] == w[0];
      assert Put(t, [w[0]]) == t + [w[0]] && (t + [w[0]]) + w[1..] == t + w;
      AtomAll(w[1..], rest, t + [w[0]]);
    }
  }

  // --- the end of a list ---

  // A comment at the end, behind no phrase, names the last address if that has an empty name and a mailbox.
  lemma EndSays(front: seq<Address>, a: Address, c: string, n: nat)
    requires 0 < |c| <= MAX
    ensures Finish(State(front + [a], "", c, n)) ==
      Result(front + [if a.personal == Some("") && a.mailbox.Some? && a.mailbox != Some("") then Address(Some(c), a.mailbox, a.group) else a], n)
    ensures Finish(State([], "", c, n)) == Result([], n)
  {
    assert (front + [a])[..|front|] == front;
  }
}
