// address/address.c: writing addresses and address lists.
module AddressPrinter {
  import opened Sequences
  import opened Wrappers
  import opened AddressSyntax

  // A string under construction (struct Buffer).
  class Text {
    var text: string

    constructor ()
      ensures text == ""
    {
      text := "";
    }
  }

  predicate HasSpecial(p: string) {
    exists i :: 0 <= i < |p| && IsSpecial(p[i])
  }

  // strpbrk(p, AddressSpecials)
  method FindSpecial(p: string) returns (found: bool)
    ensures found == HasSpecial(p)
  {
    for i := 0 to |p|
      invariant forall j :: 0 <= j < i ==> !IsSpecial(p[j])
    {
      if IsSpecial(p[i]) {
        return true;
      }
    }
    found := false;
  }

  ghost function Escape(p: string): string {
    if p == "" then "" else (if p[0] == '"' || p[0] == '\\' then "\\" + [p[0]] else [p[0]]) + Escape(p[1..])
  }

  lemma {:induction false} EscapeSnoc(p: string, c: char)
    ensures Escape(p + [c]) == Escape(p) + (if c == '"' || c == '\\' then "\\" + [c] else [c])
  {
    hide Escape;
    EscapeStep(p);
    EscapeStep(p + [c]);
    EscapeStep("");
    if p == "" {
      assert p + [c] == [c] && [c][1..] == "";
    } else {
      assert (p + [c])[1..] == p[1..] + [c];
      EscapeSnoc(p[1..], c);
    }
  }

  lemma EscapeStep(p: string)
    ensures Escape(p) == if p == "" then "" else (if p[0] == '"' || p[0] == '\\' then "\\" + [p[0]] else [p[0]]) + Escape(p[1..])
  {
  }

  // Whether the mailbox is written in angle brackets.
  predicate Angled(a: Address) {
    a.personal.Some? || (a.mailbox.Some? && a.mailbox.value != "" && a.mailbox.value[0] == '@')
  }

  ghost function NameText(p: string): string {
    if HasSpecial(p) then "\"" + Escape(p) + "\"" else p
  }

  // The text of one address; an address without name and mailbox has none.
  ghost function AddrText(a: Address): string {
    if a.personal.None? && a.mailbox.None? then ""
    else
      (if a.personal.Some? then NameText(a.personal.value) + " " else "") +
      (if Angled(a) then "<" else "") +
      if a.mailbox.None? then ";"
      else (if a.mailbox.value == "@" then "" else a.mailbox.value) + (if Angled(a) then ">" else "") + (if a.group then ": " else "")
  }

  // mutt_addr_write, not for display
  method AddrWrite(buf: Text, addr: Address) returns (n: nat)
    modifies buf
    ensures buf.text == old(buf.text) + AddrText(addr) && n == |AddrText(addr)|
  {
    if addr.personal.None? && addr.mailbox.None? {
      return 0;
    }
    var initial := |buf.text|;
    ghost var t0 := buf.text;
    if addr.personal.Some? {
      var p := addr.personal.value;
      var found := FindSpecial(p);
      if found {
        buf.text := buf.text + "\"";
        ghost var t1 := buf.text;
        for i := 0 to |p|
          invariant buf.text == t1 + Escape(p[..i])
        {
          EscapeSnoc(p[..i], p[i]);
          assert p[..i + 1] == p[..i] + [p[i]];
          if p[i] == '"' || p[i] == '\\' {
            buf.text := buf.text + "\\";
          }
          buf.text := buf.text + [p[i]];
        }
        assert p[..|p|] == p;
        buf.text := buf.text + "\"";
        assert buf.text == t0 + ("\"" + Escape(p) + "\"");
      } else {
        buf.text := buf.text + p;
      }
      buf.text := buf.text + " ";
      assert buf.text == t0 + (NameText(p) + " ");
    }
    ghost var name := if addr.personal.Some? then NameText(addr.personal.value) + " " else "";
    assert buf.text == t0 + name;
    RestWrite(buf, addr);
    Assoc(t0, name, RestText(addr));
    RestIs(addr);
    n := |buf.text| - initial;
  }

  // What follows the name.
  ghost function RestText(a: Address): string {
    (if Angled(a) then "<" else "") +
    if a.mailbox.None? then ";"
    else (if a.mailbox.value == "@" then "" else a.mailbox.value) + (if Angled(a) then ">" else "") + (if a.group then ": " else "")
  }

  lemma RestIs(a: Address)
    requires a.personal.Some? || a.mailbox.Some?
    ensures AddrText(a) == (if a.personal.Some? then NameText(a.personal.value) + " " else "") + RestText(a)
  {
    hide NameText;
    var name := if a.personal.Some? then NameText(a.personal.value) + " " else "";
    var lt := if Angled(a) then "<" else "";
    var m := if a.mailbox.None? then ";"
             else (if a.mailbox.value == "@" then "" else a.mailbox.value) + (if Angled(a) then ">" else "") + (if a.group then ": " else "");
    assert (name + lt) + m == name + (lt + m);
  }

  method RestWrite(buf: Text, addr: Address)
    modifies buf
    ensures buf.text == old(buf.text) + RestText(addr)
  {
    ghost var t := buf.text;
    if Angled(addr) {
      buf.text := buf.text + "<";
    }
    if addr.mailbox.Some? {
      if addr.mailbox.value != "@" {
        buf.text := buf.text + addr.mailbox.value;
      }
      if Angled(addr) {
        buf.text := buf.text + ">";
      }
      if addr.group {
        buf.text := buf.text + ": ";
      }
    } else {
      buf.text := buf.text + ";";
    }
  }

  // --- lists ---

  predicate IsTerminator(a: Address) {
    !a.group && a.mailbox.None? && a.personal.None?
  }

  // What follows an address that is not the start of a group.
  ghost function After(a: Address, inGroup: bool, tail: seq<Address>): string {
    if a.group then ""
    else
      (if inGroup && IsTerminator(a) then ";" else "") +
      (if tail != [] && (tail[0].mailbox.Some? || tail[0].personal.Some?) then ", " else "")
  }

  ghost function StillInGroup(a: Address, inGroup: bool): bool {
    a.group || (inGroup && !IsTerminator(a))
  }

  // The text of a list, with line breaks before some of the addresses.
  ghost function ListText(al: seq<Address>, inGroup: bool, breaks: seq<bool>): string
    requires |breaks| == |al|
  {
    if al == [] then ""
    else
      (if breaks[0] then "\n\t" else "") + AddrText(al[0]) + After(al[0], inGroup || al[0].group, al[1..]) +
      ListText(al[1..], StillInGroup(al[0], inGroup), breaks[1..])
  }

  // Where the lines break: before an address, other than the first, that does not fit.
  ghost function Breaks(al: seq<Address>, inGroup: bool, first: bool, col: nat, cols: int): (breaks: seq<bool>)
    ensures |breaks| == |al| && (first && al != [] ==> !breaks[0])
    ensures cols <= 0 ==> forall b :: b in breaks ==> !b
  {
    if al == [] then []
    else
      var wide := col + |AddrText(al[0])|;
      var b := cols > 0 && wide > cols && !first;
      [b] + Breaks(al[1..], StillInGroup(al[0], inGroup), false, (if b then 8 else wide) + |After(al[0], inGroup || al[0].group, al[1..])|, cols)
  }

  // buf_insert
  method Insert(buf: Text, offset: nat, s: string)
    requires offset <= |buf.text|
    modifies buf
    ensures buf.text == old(buf.text)[..offset] + s + old(buf.text)[offset..]
  {
    buf.text := buf.text[..offset] + s + buf.text[offset..];
  }

  // One address of the list: written, and broken before if it does not fit.
  method WriteItem(buf: Text, a: Address, first: bool, col0: nat, cols: int) returns (col: nat)
    modifies buf
    ensures var wide := col0 + |AddrText(a)|; var b := cols > 0 && wide > cols && !first;
      buf.text == old(buf.text) + ((if b then "\n\t" else "") + AddrText(a)) && col == if b then 8 else wide
  {
    hide AddrText;
    var len := |buf.text|;
    ghost var t := buf.text;
    var n := AddrWrite(buf, a);
    col := col0 + n;
    if cols > 0 && col > cols && !first {
      assert buf.text[..len] == t && buf.text[len..] == AddrText(a);
      Insert(buf, len, "\n\t");
      assert buf.text == t + ("\n\t" + AddrText(a));
      col := 8;
    }
  }

  // ... and what follows it.
  method WriteAfter(buf: Text, a: Address, hasNext: bool, nextGiven: bool, inGroup0: bool, col0: nat) returns (inGroup: bool, col: nat)
    modifies buf
    ensures var g := inGroup0 || a.group;
      var after := if a.group then ""
                   else (if g && IsTerminator(a) then ";" else "") + (if hasNext && nextGiven then ", " else "");
      buf.text == old(buf.text) + after && col == col0 + |after|
    ensures inGroup == StillInGroup(a, inGroup0)
  {
    inGroup, col := inGroup0 || a.group, col0;
    ghost var u := buf.text;
    if !a.group {
      if inGroup && a.mailbox.None? && a.personal.None? {
        buf.text := buf.text + ";";
        col := col + 1;
        inGroup := false;
      }
      if hasNext && nextGiven {
        buf.text := buf.text + ", ";
        col := col + 2;
      }
    }
  }

  // addrlist_write
  method AddrListWrite(al: seq<Address>, buf: Text, header: Option<string>, cols: int) returns (n: nat)
    modifies buf
    ensures al == [] ==> buf.text == old(buf.text) && n == 0
    ensures al != [] ==> var start := old(buf.text) + if header.Some? then header.value + ": " else "";
      buf.text == start + ListText(al, false, Breaks(al, false, true, |start|, cols)) && n == |buf.text|
  {
    hide AddrText, ListText, Breaks, After, StillInGroup;
    if |al| == 0 {
      return 0;
    }
    if header.Some? {
      buf.text := buf.text + (header.value + ": ");
    }
    assert header.None? ==> old(buf.text) + "" == buf.text;
    var col: nat := |buf.text|;
    ghost var start := buf.text;
    var inGroup := false;
    ghost var total := ListText(al, false, Breaks(al, false, true, col, cols));
    assert al[0..] == al;
    for i := 0 to |al|
      invariant start + total == buf.text + ListText(al[i..], inGroup, Breaks(al[i..], inGroup, i == 0, col, cols))
    {
      ListStep(al, i, inGroup, col, cols, buf.text);
      AfterIs(al[i], inGroup || al[i].group, al, i);
      col := WriteItem(buf, al[i], i == 0, col, cols);
      inGroup, col := WriteAfter(buf, al[i], i + 1 < |al|, i + 1 < |al| && (al[i + 1].mailbox.Some? || al[i + 1].personal.Some?), inGroup, col);
    }
    ListEnd(al, inGroup, Breaks(al[|al|..], inGroup, false, col, cols));
    n := |buf.text|;
  }

  lemma AfterIs(a: Address, inGroup: bool, al: seq<Address>, i: nat)
    requires i < |al|
    ensures After(a, inGroup, al[i + 1..]) ==
      if a.group then ""
      else (if inGroup && IsTerminator(a) then ";" else "") +
           (if i + 1 < |al| && (al[i + 1].mailbox.Some? || al[i + 1].personal.Some?) then ", " else "")
  {
  }

  lemma ListStep(al: seq<Address>, i: nat, inGroup: bool, col: nat, cols: int, t: string)
    requires i < |al|
    ensures var a := al[i]; var wide := col + |AddrText(a)|; var b := cols > 0 && wide > cols && i != 0;
      var after := After(a, inGroup || a.group, al[i + 1..]);
      var next := (if b then 8 else wide) + |after|;
      var g := StillInGroup(a, inGroup);
      t + ListText(al[i..], inGroup, Breaks(al[i..], inGroup, i == 0, col, cols))
      == ((t + ((if b then "\n\t" else "") + AddrText(a))) + after) + ListText(al[i + 1..], g, Breaks(al[i + 1..], g, false, next, cols))
  {
    hide AddrText, After;
    assert al[i..][1..] == al[i + 1..];
    var a := al[i];
    var wide := col + |AddrText(a)|;
    var b := cols > 0 && wide > cols && i != 0;
    var after := After(a, inGroup || a.group, al[i + 1..]);
    var g := StillInGroup(a, inGroup);
    var rest := Breaks(al[i + 1..], g, false, (if b then 8 else wide) + |after|, cols);
    assert Breaks(al[i..], inGroup, i == 0, col, cols) == [b] + rest;
    assert ([b] + rest)[1..] == rest;
    var front := (if b then "\n\t" else "") + AddrText(a);
    Joined3(t, front, after, ListText(al[i + 1..], g, rest));
  }

  lemma Joined3(a: string, b: string, c: string, d: string)
    ensures a + ((b + c) + d) == ((a + b) + c) + d
  {
  }

  lemma ListEnd(al: seq<Address>, inGroup: bool, breaks: seq<bool>)
    requires |breaks| == 0
    ensures ListText(al[|al|..], inGroup, breaks) == ""
  {
  }
}
