// decode_quoted and decode_xbit (handler.c), against the encoding of RFC 2045, section 6.7.
module QuotedPrintable {
  import opened Sequences
  import opened HandlerState
  import opened Wrappers

  const NUL: byte := 0

  predicate IsSpace(b: byte) {
    b == 32 || 9 <= b <= 13
  }

  // isxdigit, and hexval
  predicate IsHex(b: byte) {
    48 <= b <= 57 || 65 <= b <= 70 || 97 <= b <= 102
  }

  function Hexval(b: byte): (v: int)
    requires IsHex(b)
    ensures 0 <= v < 16
  {
    if b <= 57 then b - 48 else if b <= 70 then b - 55 else b - 87
  }

  // The digits of section 6.7, rule 1; lower case is read, too.
  lemma HexIs(b: byte)
    ensures IsHex(b) <==> (b as char) in "0123456789ABCDEFabcdef"
    ensures IsHex(b) ==> "0123456789ABCDEF"[Hexval(b)] as int == b || "0123456789abcdef"[Hexval(b)] as int == b
    ensures IsSpace(b) <==> b in [9, 10, 11, 12, 13, 32]
  {
    hide *;
    HexRange(b);
    if IsHex(b) {
      HexDigits(b);
    }
    SpaceRange(b);
  }

  lemma HexRange(b: byte)
    ensures IsHex(b) <==> (b as char) in "0123456789ABCDEFabcdef"
  {
    var s := "0123456789ABCDEFabcdef";
    assert forall i :: 0 <= i < |s| ==> IsHex(s[i] as int);
    if IsHex(b) {
      var i := if b <= 57 then b - 48 else if b <= 70 then b - 55 else b - 81;
      assert s[i] == b as char;
    }
  }

  lemma HexDigits(b: byte)
    requires IsHex(b)
    ensures "0123456789ABCDEF"[Hexval(b)] as int == b || "0123456789abcdef"[Hexval(b)] as int == b
  {
  }

  lemma SpaceRange(b: byte)
    ensures IsSpace(b) <==> b in [9, 10, 11, 12, 13, 32]
  {
  }

  // --- the decoding of one line ---

  // A line is read as triples =XX, single characters and, at its end, the = of a soft break.
  ghost function Bytes(s: seq<byte>): seq<byte> {
    if s == [] then []
    else if s == [EQUALS] then []
    else if IsTriple(s) then [TripleByte(s)] + Bytes(s[3..])
    else [s[0]] + Bytes(s[1..])
  }

  predicate IsTriple(s: seq<byte>) {
    |s| >= 3 && s[0] == EQUALS && IsHex(s[1]) && IsHex(s[2])
  }

  function TripleByte(s: seq<byte>): byte
    requires IsTriple(s)
  {
    Hexval(s[1]) * 16 + Hexval(s[2])
  }

  ghost predicate Soft(s: seq<byte>) {
    if s == [] then false
    else if s == [EQUALS] then true
    else if IsTriple(s) then Soft(s[3..])
    else Soft(s[1..])
  }

  // The last thing read is a triple for CR.
  ghost predicate EndsInTripleCr(s: seq<byte>) {
    if s == [] || s == [EQUALS] then false
    else if IsTriple(s) then if s[3..] == [] then TripleByte(s) == CR else EndsInTripleCr(s[3..])
    else EndsInTripleCr(s[1..])
  }

  // The bytes of a line, and the line break after it unless it is soft or the line was cut.
  ghost function DecodedLine(s: seq<byte>, last: byte): seq<byte> {
    if Soft(s) || last != LF then Bytes(s)
    else if EndsInTripleCr(s) then Bytes(s)[..|Bytes(s)| - 1] + [LF]
    else Bytes(s) + [LF]
  }

  lemma {:induction false} BytesShort(s: seq<byte>)
    ensures |Bytes(s)| <= |s| && (Soft(s) ==> |Bytes(s)| < |s|) && (EndsInTripleCr(s) ==> !Soft(s) && 0 < |Bytes(s)|)
  {
    if s != [] && s != [EQUALS] {
      BytesShort(if IsTriple(s) then s[3..] else s[1..]);
    }
  }

  // = and the digits hi and lo stand for 16 * hi + lo; any other = stands for itself.
  lemma TripleSays(hi: nat, lo: nat, rest: seq<byte>)
    requires hi < 16 && lo < 16
    ensures var h, l := "0123456789ABCDEF"[hi] as int, "0123456789ABCDEF"[lo] as int;
      && 0 <= h < 256 && 0 <= l < 256 && Bytes([61, h, l] + rest) == [16 * hi + lo] + Bytes(rest) && Soft([61, h, l] + rest) == Soft(rest)
    ensures Bytes([61]) == [] && Soft([61])
  {
    hide Bytes, Soft;
    DigitSays(hi);
    DigitSays(lo);
    var s := [61, "0123456789ABCDEF"[hi] as int, "0123456789ABCDEF"[lo] as int] + rest;
    assert s[3..] == rest;
    LineStep(s);
    LineStep([61]);
  }

  lemma DigitSays(d: nat)
    requires d < 16
    ensures 0 <= "0123456789ABCDEF"[d] as int < 256 && IsHex("0123456789ABCDEF"[d] as int) && Hexval("0123456789ABCDEF"[d] as int) == d
  {
  }

  lemma LineStep(s: seq<byte>)
    requires s != []
    ensures s == [61] ==> Bytes(s) == [] && Soft(s)
    ensures IsTriple(s) ==> Bytes(s) == [TripleByte(s)] + Bytes(s[3..]) && Soft(s) == Soft(s[3..])
    ensures s != [61] && !IsTriple(s) ==> Bytes(s) == [s[0]] + Bytes(s[1..]) && Soft(s) == Soft(s[1..])
  {
  }

  lemma SingleSays(s: seq<byte>)
    requires |s| > 1 && (s[0] == 61 ==> |s| < 3 || !IsHex(s[1]) || !IsHex(s[2]))
    ensures Bytes(s) == [s[0]] + Bytes(s[1..]) && Soft(s) == Soft(s[1..])
  {
    hide Bytes, Soft;
    LineStep(s);
  }

  datatype Kind = Soft0 | Triple | Single

  // qp_decode_triple
  function DecodeTriple(s: seq<byte>): (r: (Kind, byte))
    requires s != []
    ensures r.0.Soft0? <==> s == [EQUALS]
    ensures r.0.Triple? <==> IsTriple(s)
    ensures r.0.Triple? ==> r.1 == TripleByte(s)
  {
    if s[0] == EQUALS && |s| == 1 then (Soft0, 0)
    else if IsTriple(s) then (Triple, TripleByte(s))
    else (Single, 0)
  }

  // How one step of the loop divides the rest of the line.
  lemma TokenStep(src: seq<byte>, s: nat, front: seq<byte>)
    requires s < |src|
    ensures var (kind, c) := DecodeTriple(src[s..]);
      match kind {
        case Triple =>
          s + 3 <= |src| && front + Bytes(src[s..]) == (front + [c]) + Bytes(src[s + 3..])
          && Soft(src[s..]) == Soft(src[s + 3..])
          && EndsInTripleCr(src[s..]) == (EndsInTripleCr(src[s + 3..]) || (s + 3 == |src| && c == CR))
        case Single =>
          front + Bytes(src[s..]) == (front + [src[s]]) + Bytes(src[s + 1..])
          && Soft(src[s..]) == Soft(src[s + 1..]) && EndsInTripleCr(src[s..]) == EndsInTripleCr(src[s + 1..])
        case Soft0 =>
          s + 1 == |src| && front + Bytes(src[s..]) == front + Bytes(src[s + 1..])
          && Soft(src[s..]) && !EndsInTripleCr(src[s..]) && !EndsInTripleCr(src[s + 1..])
      }
  {
    var rest := src[s..];
    assert rest[1..] == src[s + 1..];
    if IsTriple(rest) {
      assert rest[3..] == src[s + 3..];
    }
  }

  lemma LineEnd(src: seq<byte>)
    ensures Bytes(src[|src|..]) == [] && !Soft(src[|src|..]) && !EndsInTripleCr(src[|src|..])
  {
  }

  // The loop of qp_decode_line: src is decoded into dest from index from on, up to index d.
  method DecodeTokens(dest: array<byte>, from: nat, src: seq<byte>) returns (d: nat, soft: bool, tripleCr: bool)
    requires from + |src| < dest.Length
    modifies dest
    ensures from <= d <= from + |src| && dest[..from] == old(dest[..from]) && dest[from..d] == Bytes(src)
    ensures soft == Soft(src) && tripleCr == EndsInTripleCr(src)
  {
    hide Bytes, Soft, EndsInTripleCr, TripleByte, IsTriple;
    var s, c, kind := 0, 0, Single;
    d, soft := from, false;
    assert src[0..] == src && dest[from..from] == [];
    LineEnd(src);
    while s < |src|
      invariant s <= |src| && from <= d <= from + s && dest[..from] == old(dest[..from])
      invariant Bytes(src) == dest[from..d] + Bytes(src[s..])
      invariant Soft(src) == (soft || Soft(src[s..])) && (soft ==> s == |src|)
      invariant EndsInTripleCr(src) == (EndsInTripleCr(src[s..]) || (s == |src| && kind == Triple && c == CR))
    {
      var r := DecodeTriple(src[s..]);
      kind := r.0;
      ghost var front := dest[from..d];
      TokenStep(src, s, front);
      match kind {
        case Triple =>
          c := r.1;
          dest[d] := c;
          d := d + 1;
          s := s + 3;
          assert dest[from..d] == front + [c];
        case Single =>
          dest[d] := src[s];
          d, s := d + 1, s + 1;
          assert dest[from..d] == front + [src[s - 1]];
        case Soft0 =>
          soft := true;
          s := s + 1;
      }
    }
    tripleCr := kind == Triple && c == CR;
  }

  // qp_decode_line: the result is the number of bytes written.
  method DecodeLine(dest: array<byte>, from: nat, src: seq<byte>, last: byte) returns (l: nat)
    requires from + |src| + 1 < dest.Length
    modifies dest
    ensures from + l < dest.Length && dest[..from] == old(dest[..from])
    ensures dest[from..from + l] == DecodedLine(src, last) && dest[from + l] == NUL
    ensures l <= |src| + if last == LF then 1 else 0
  {
    hide Bytes, Soft, EndsInTripleCr;
    BytesShort(src);
    var d, soft, tripleCr := DecodeTokens(dest, from, src);
    ghost var all := dest[from..d];
    if !soft && last == LF {
      if tripleCr {
        dest[d - 1] := LF;
        assert dest[from..d] == all[..|all| - 1] + [LF];
      } else {
        dest[d] := LF;
        d := d + 1;
        assert dest[from..d] == all + [LF];
      }
    }
    dest[d] := NUL;
    l := d - from;
  }

  // --- decode_quoted ---

  function Min(a: nat, b: nat): nat {
    if a <= b then a else b
  }

  // How much fgets reads: up to and including the first LF, at most max bytes.
  ghost function LineLength(s: seq<byte>, max: nat): (n: nat)
    ensures n <= |s| && n <= max && (s != [] && max > 0 ==> n > 0)
  {
    if s == [] || max == 0 then 0 else if s[0] == LF then 1 else 1 + LineLength(s[1..], max - 1)
  }

  ghost function UpToNul(s: seq<byte>): (t: seq<byte>)
    ensures |t| <= |s|
  {
    if s == [] || s[0] == NUL then [] else [s[0]] + UpToNul(s[1..])
  }

  ghost function Chop(s: seq<byte>): (t: seq<byte>)
    ensures |t| <= |s|
  {
    if s != [] && IsSpace(s[|s| - 1]) then Chop(s[..|s| - 1]) else s
  }

  function Last(s: seq<byte>): byte {
    if s == [] then 0 else s[|s| - 1]
  }

  // What one line, as a C string, becomes: trailing blanks are dropped if it is complete.
  ghost function LineText(line: seq<byte>): seq<byte> {
    DecodedLine(if Last(line) == LF then Chop(line) else line, Last(line))
  }

  // A part of a line that was cut off keeps the blanks at its end, and gets no line break.
  lemma CutLine(line: seq<byte>)
    requires line == [] || line[|line| - 1] != 10
    ensures LineText(line) == Bytes(line)
  {
  }

  // A decoded line is no longer than its source.
  lemma LineShrinks(line: seq<byte>)
    ensures |LineText(line)| <= |line|
  {
    hide Bytes, Soft, EndsInTripleCr;
    if Last(line) == LF {
      assert |Chop(line)| < |line| by { assert |Chop(line[..|line| - 1])| < |line|; }
      BytesShort(Chop(line));
    } else {
      BytesShort(line);
    }
  }

  // The text of the rest of the file, up to the line that uses up len.
  ghost function Text(s: seq<byte>, len: nat): seq<byte>
    decreases |s|
  {
    if len == 0 || s == [] then []
    else
      var n := LineLength(s, Min(255, len));
      var line := UpToNul(s[..n]);
      LineText(line) + Text(s[n..], len - |line|)
  }

  lemma LineLengthStep(s: seq<byte>, n: nat, max: nat)
    requires n < |s| && n < max
    ensures n + LineLength(s[n..], max - n) == n + 1 + if s[n] == LF then 0 else LineLength(s[n + 1..], max - n - 1)
  {
    assert s[n..][1..] == s[n + 1..];
  }

  // fgets: the bytes and the final NUL.
  method Fgets(st: State, line: array<byte>, size: nat) returns (n: nat)
    requires st.Valid() && 0 < size <= line.Length
    modifies st`pos, line
    ensures st.Valid() && st.pos == old(st.pos) + n && n == LineLength(st.input[old(st.pos)..], size - 1) && n < line.Length
    ensures line[..n] == st.input[old(st.pos)..old(st.pos) + n] && line[n] == NUL
  {
    hide LineLength;
    n := 0;
    ghost var s := st.input[st.pos..];
    ghost var total := LineLength(s, size - 1);
    var stop := false;
    assert s[0..] == s;
    while n < size - 1 && st.pos < |st.input| && !stop
      invariant n <= |s| && st.pos == old(st.pos) + n && n <= size - 1
      invariant forall k :: 0 <= k < n ==> line[k] == s[k]
      invariant total == n + if stop then 0 else LineLength(s[n..], size - 1 - n)
    {
      var c := st.input[st.pos];
      LineLengthStep(s, n, size - 1);
      st.pos := st.pos + 1;
      line[n] := c;
      n := n + 1;
      stop := c == LF;
    }
    LineLengthEnd(s[n..], size - 1 - n);
    line[n] := NUL;
  }

  lemma LineLengthEnd(s: seq<byte>, max: nat)
    ensures s == [] || max == 0 ==> LineLength(s, max) == 0
  {
  }

  lemma UpToNulStep(s: seq<byte>, k: nat)
    requires k < |s|
    ensures s[..k] + UpToNul(s[k..]) == if s[k] == NUL then s[..k] else s[..k + 1] + UpToNul(s[k + 1..])
  {
    assert s[k..][1..] == s[k + 1..] && s[..k + 1] == s[..k] + [s[k]];
  }

  method Strlen(line: array<byte>, ghost n: nat) returns (k: nat)
    requires n < line.Length && line[n] == NUL
    ensures k <= n && line[k] == NUL && line[..k] == UpToNul(line[..n])
  {
    hide UpToNul;
    k := 0;
    ghost var s := line[..n];
    assert s[..0] + UpToNul(s[0..]) == UpToNul(s) by { assert s[0..] == s; }
    while line[k] != NUL
      invariant k <= n
      invariant UpToNul(s) == s[..k] + UpToNul(s[k..])
      decreases n - k
    {
      UpToNulStep(s, k);
      k := k + 1;
    }
    if k < n {
      UpToNulStep(s, k);
    } else {
      UpToNulNone(s[n..]);
    }
    assert line[..k] == s[..k];
  }

  lemma UpToNulNone(s: seq<byte>)
    requires s == []
    ensures UpToNul(s) == []
  {
  }

  // Chops trailing white space off a line of linelen bytes.
  method ChopLine(line: array<byte>, linelen0: nat) returns (linelen: nat)
    requires linelen0 < line.Length
    modifies line
    ensures linelen <= linelen0 && line[..linelen] == Chop(old(line[..linelen0])) && line[linelen] == NUL
  {
    linelen := linelen0;
    while linelen > 0 && IsSpace(line[linelen - 1])
      invariant linelen <= linelen0 && line[..] == old(line[..])
      invariant Chop(line[..linelen]) == Chop(line[..linelen0])
    {
      assert line[..linelen][..linelen - 1] == line[..linelen - 1];
      linelen := linelen - 1;
    }
    line[linelen] := NUL;
  }

  // The body of the loop of decode_quoted, for the n bytes read into line.
  method DecodeRead(line: array<byte>, n: nat, decline: array<byte>) returns (linelen: nat, l: nat)
    requires n < line.Length == 256 && line[n] == NUL && decline.Length == 512 && line != decline
    modifies line, decline
    ensures linelen == |UpToNul(old(line[..n]))|
    ensures l <= linelen && decline[..l] == LineText(UpToNul(old(line[..n])))
  {
    hide UpToNul, Chop, DecodedLine;
    linelen := Strlen(line, n);
    ghost var source := line[..linelen];
    var last := if linelen != 0 then line[linelen - 1] else 0;
    var left := linelen;
    if last == LF {
      left := ChopLine(line, linelen);
    }
    l := DecodeLine(decline, 0, line[..left], last);
    LineShrinks(source);
    assert decline[..l] == decline[0..l];
  }

  // One line of decode_quoted, read, decoded and written.
  method QuotedLine(st: State, line: array<byte>, decline: array<byte>, len0: nat, ghost out0: seq<byte>, ghost pend0: bool,
        ghost written: seq<byte>) returns (eof: bool, len: nat, ghost more: seq<byte>)
    requires st.Valid() && len0 > 0 && line.Length == 256 && decline.Length == 512 && line != decline
    requires Flushed(st, out0, pend0, written)
    modifies st, line, decline
    ensures st.Valid() && (eof <==> old(st.pos) == |st.input|) && (eof ==> len == len0 && more == [])
    ensures if eof then st.pos == old(st.pos) else old(st.pos) < st.pos
    ensures Flushed(st, out0, pend0, written + more)
    ensures written + Text(st.input[old(st.pos)..], len0) == (written + more) + Text(st.input[st.pos..], len)
  {
    hide Rendered, PendingAfter, Text, LineText, Flushed, LineLength, UpToNul;
    more, len := [], len0;
    assert written + more == written;
    TextStep(st.input, st.pos, len, written);
    var n := Fgets(st, line, Min(256, len + 1));
    eof := n == 0;
    if eof {
      return;
    }
    var linelen, l := DecodeRead(line, n, decline);
    len := len - linelen;
    more := decline[..l];
    l := Flush(st, decline, l, out0, pend0, written);
  }

  // The output is the text of the lines, however they fall into the buffer.
  method DecodeQuoted(st: State, len0: nat, istext: bool)
    requires st.Valid()
    modifies st
    ensures st.Valid() && !st.pending
    ensures st.output == old(st.output) + Rendered(st.prefix, istext || old(st.pending), Text(st.input[old(st.pos)..], len0))
  {
    hide Rendered, PendingAfter, Text, Flushed;
    var len, line, decline, eof := len0, new byte[256], new byte[512], false;
    if istext {
      st.pending := true;
    }
    ghost var out0, pend0 := st.output, st.pending;
    ghost var all: seq<byte>, written: seq<byte>, more := Text(st.input[st.pos..], len), [], [];
    NothingYet(st, pend0);
    while len > 0 && !eof
      invariant st.Valid() && Flushed(st, out0, pend0, written) && (eof ==> st.pos == |st.input|)
      invariant all == written + Text(st.input[st.pos..], len)
      decreases |st.input| - st.pos, !eof
    {
      eof, len, more := QuotedLine(st, line, decline, len, out0, pend0, written);
      written := written + more;
    }
    TextEnd(st.input, st.pos, len, written);
    Output(st, out0, pend0, written);
    st.pending := false;
  }

  lemma TextStep(input: seq<byte>, pos: nat, len: nat, front: seq<byte>)
    requires pos <= |input| && len > 0
    ensures var n := LineLength(input[pos..], Min(255, len));
      && pos + n <= |input| && (n == 0 <==> pos == |input|)
      && var line := UpToNul(input[pos..pos + n]);
         |line| <= len && (n > 0 ==> front + Text(input[pos..], len) == (front + LineText(line)) + Text(input[pos + n..], len - |line|))
  {
    hide *;
    MinIs(255, len);
    var n := LineLength(input[pos..], Min(255, len));
    assert input[pos..][..n] == input[pos..pos + n] && input[pos..][n..] == input[pos + n..];
    if n > 0 {
      TextUnfold(input[pos..], len);
      var line := UpToNul(input[pos..pos + n]);
      Assoc(front, LineText(line), Text(input[pos + n..], len - |line|));
    }
  }

  lemma MinIs(a: nat, b: nat)
    ensures Min(a, b) <= a && Min(a, b) <= b && (a > 0 && b > 0 ==> Min(a, b) > 0)
  {
  }

  lemma TextUnfold(s: seq<byte>, len: nat)
    requires len > 0 && s != []
    ensures var n := LineLength(s, Min(255, len)); var line := UpToNul(s[..n]);
            |line| <= len && Text(s, len) == LineText(line) + Text(s[n..], len - |line|)
  {
    hide LineText, LineLength;
    MinIs(255, len);
  }

  lemma TextEnd(input: seq<byte>, pos: nat, len: nat, front: seq<byte>)
    requires pos <= |input| && (len == 0 || pos == |input|)
    ensures front + Text(input[pos..], len) == front
  {
  }

  // --- the encodings of a text ---

  // A byte stands for itself or is written in hexadecimal.
  datatype Item = Plain(b: byte) | Hex(hi: byte, lo: byte)

  // An encoded line: its items, whether its line break belongs to the text, and the white space
  // that was added before the line break on the way (a CR, for instance).
  datatype Line = Line(items: seq<Item>, hard: bool, padding: seq<byte>)

  ghost predicate ItemOK(i: Item) {
    if i.Plain? then i.b != EQUALS && i.b != LF && i.b != NUL else IsHex(i.hi) && IsHex(i.lo)
  }

  ghost predicate ItemsOK(items: seq<Item>) {
    items != [] ==> ItemOK(items[0]) && ItemsOK(items[1..])
  }

  // White space at the end of a hard line must be written in hexadecimal.  The standard allows 76
  // characters; the decoder reads up to 255 at a time.
  ghost predicate LineOK(l: Line) {
    && ItemsOK(l.items)
    && (forall k :: 0 <= k < |l.padding| ==> IsSpace(l.padding[k]) && l.padding[k] != LF)
    && (l.hard && l.items != [] && l.items[|l.items| - 1].Plain? ==> !IsSpace(l.items[|l.items| - 1].b))
    && |Encoded(l)| <= 255
  }

  ghost function Codes(items: seq<Item>): seq<byte> {
    if items == [] then []
    else (if items[0].Plain? then [items[0].b] else [EQUALS, items[0].hi, items[0].lo]) + Codes(items[1..])
  }

  ghost function Encoded(l: Line): seq<byte> {
    Codes(l.items) + (if l.hard then [] else [EQUALS]) + l.padding + [LF]
  }

  ghost function EncodedAll(ls: seq<Line>): seq<byte> {
    if ls == [] then [] else Encoded(ls[0]) + EncodedAll(ls[1..])
  }

  ghost function Value(i: Item): byte
    requires ItemOK(i)
  {
    if i.Plain? then i.b else Hexval(i.hi) * 16 + Hexval(i.lo)
  }

  ghost function Values(items: seq<Item>): seq<byte>
    requires ItemsOK(items)
  {
    if items == [] then [] else [Value(items[0])] + Values(items[1..])
  }

  ghost function Meaning(l: Line): seq<byte>
    requires LineOK(l)
  {
    Values(l.items) + if l.hard then [LF] else []
  }

  ghost predicate AllOK(ls: seq<Line>) {
    forall k :: 0 <= k < |ls| ==> LineOK(ls[k])
  }

  ghost function MeaningAll(ls: seq<Line>): seq<byte>
    requires AllOK(ls)
  {
    if ls == [] then [] else Meaning(ls[0]) + MeaningAll(ls[1..])
  }

  // The decoder takes an encoded CR at the end of a line for part of the line break.
  ghost predicate LosesCr(l: Line)
    requires LineOK(l)
  {
    l.hard && EndsInHexCr(l.items)
  }

  ghost predicate EndsInHexCr(items: seq<Item>)
    requires ItemsOK(items)
  {
    items != [] && if items[1..] == [] then items[0].Hex? && Value(items[0]) == CR else EndsInHexCr(items[1..])
  }

  lemma {:induction false} CodesRead(items: seq<Item>, tail: seq<byte>)
    requires ItemsOK(items) && (tail == [] || tail == [EQUALS])
    ensures Bytes(Codes(items) + tail) == Values(items) && (Soft(Codes(items) + tail) <==> tail == [EQUALS])
    ensures tail == [] ==> (EndsInTripleCr(Codes(items) + tail) <==> EndsInHexCr(items))
  {
    var s := Codes(items) + tail;
    if items == [] {
      assert s == tail;
    } else {
      var rest := Codes(items[1..]) + tail;
      CodesRead(items[1..], tail);
      if items[0].Plain? {
        assert s == [items[0].b] + rest && s[1..] == rest;
      } else {
        assert s == [EQUALS, items[0].hi, items[0].lo] + rest && s[3..] == rest;
        assert rest == [] <==> items[1..] == [] && tail == [];
      }
    }
  }

  lemma {:induction false} CodesPlain(items: seq<Item>)
    requires ItemsOK(items)
    ensures forall k :: 0 <= k < |Codes(items)| ==> Codes(items)[k] != LF && Codes(items)[k] != NUL
    ensures items == [] <==> Codes(items) == []
    ensures items != [] ==> var i := items[|items| - 1]; ItemOK(i) && Last(Codes(items)) == if i.Plain? then i.b else i.lo
  {
    if items != [] { CodesPlain(items[1..]); }
  }

  lemma {:induction false} ChopPadding(s: seq<byte>, padding: seq<byte>)
    requires forall k :: 0 <= k < |padding| ==> IsSpace(padding[k])
    requires s == [] || !IsSpace(s[|s| - 1])
    ensures Chop(s + padding) == s
  {
    if padding == [] {
      assert s + padding == s;
    } else {
      var less := padding[..|padding| - 1];
      assert (s + padding)[..|s + padding| - 1] == s + less;
      ChopPadding(s, less);
    }
  }

  lemma {:induction false} UpToNulAll(s: seq<byte>)
    requires NUL !in s
    ensures UpToNul(s) == s
  {
    if s != [] { UpToNulAll(s[1..]); }
  }

  lemma {:induction false} LineLengthIs(s: seq<byte>, rest: seq<byte>, max: nat)
    requires LF !in s && |s| < max
    ensures LineLength(s + [LF] + rest, max) == |s| + 1
  {
    if s != [] {
      assert (s + [LF] + rest)[1..] == s[1..] + [LF] + rest;
      LineLengthIs(s[1..], rest, max - 1);
    }
  }

  lemma LineDecodes(l: Line)
    requires LineOK(l)
    ensures NUL !in Encoded(l) && LineLengthReady(l)
    ensures LineText(Encoded(l)) == if LosesCr(l) then Values(l.items)[..|Values(l.items)| - 1] + [LF] else Meaning(l)
  {
    hide Codes, ItemOK, ItemsOK, Values, Bytes, Soft, EndsInTripleCr, EndsInHexCr, Chop;
    var tail := if l.hard then [] else [EQUALS];
    var s := Codes(l.items) + tail;
    CodesPlain(l.items);
    CodesRead(l.items, tail);
    assert s + (l.padding + [LF]) == Encoded(l);
    LineLast(l);
    ChopPadding(s, l.padding + [LF]);
    BytesShort(s);
  }

  lemma LineLast(l: Line)
    requires LineOK(l)
    ensures var s := Codes(l.items) + if l.hard then [] else [EQUALS]; s == [] || !IsSpace(s[|s| - 1])
  {
    CodesPlain(l.items);
  }

  // Its only LF is at its end.
  ghost predicate LineLengthReady(l: Line) {
    var e := Encoded(l);
    LF !in e[..|e| - 1] && e == e[..|e| - 1] + [LF]
  }

  // What the decoder makes of the lines.
  ghost function DecodedAll(ls: seq<Line>): seq<byte>
    requires AllOK(ls)
  {
    if ls == [] then []
    else Decoded(ls[0]) + DecodedAll(ls[1..])
  }

  ghost function Decoded(l: Line): seq<byte>
    requires LineOK(l)
  {
    if LosesCr(l) then Values(l.items)[..|Values(l.items)| - 1] + [LF] else Meaning(l)
  }

  // The buffer size makes no difference to properly encoded text.
  lemma {:induction false} TextDecodes(ls: seq<Line>, rest: seq<byte>)
    requires AllOK(ls)
    ensures Text(EncodedAll(ls) + rest, |EncodedAll(ls)|) == DecodedAll(ls)
  {
    hide LineText, LineOK, Encoded, Meaning, LosesCr, Values;
    var s, len := EncodedAll(ls) + rest, |EncodedAll(ls)|;
    if ls != [] {
      var e, more := Encoded(ls[0]), EncodedAll(ls[1..]) + rest;
      TextDecodes(ls[1..], rest);
      assert s == e + more;
      TextFirst(ls[0], more, len);
    }
  }

  // The first line of properly encoded text.
  lemma TextFirst(l: Line, more: seq<byte>, len: nat)
    requires LineOK(l) && |Encoded(l)| <= len <= |Encoded(l)| + |more|
    ensures Text(Encoded(l) + more, len) == Decoded(l) + Text(more, len - |Encoded(l)|)
  {
    hide LineText, LineOK, Encoded, Meaning, LosesCr, Values, Text;
    var e := Encoded(l);
    var s := e + more;
    LineDecodes(l);
    EncodedSize(l);
    LineLengthIs(e[..|e| - 1], more, Min(255, len));
    assert s == e[..|e| - 1] + [LF] + more;
    assert s[..|e|] == e && s[|e|..] == more;
    UpToNulAll(e);
    TextUnfold(s, len);
  }

  lemma EncodedSize(l: Line)
    requires LineOK(l)
    ensures 0 < |Encoded(l)| <= 255
  {
  }

  lemma LineValues(l: Line)
    requires LineOK(l)
    ensures LosesCr(l) ==> 0 < |Values(l.items)|
  {
  }

  lemma {:induction false} DecodedSize(ls: seq<Line>)
    requires AllOK(ls)
    ensures |DecodedAll(ls)| <= |MeaningAll(ls)|
    ensures |DecodedAll(ls)| == |MeaningAll(ls)| ==> forall l :: l in ls ==> !LosesCr(l)
    ensures (forall l :: l in ls ==> !LosesCr(l)) ==> DecodedAll(ls) == MeaningAll(ls)
  {
    if ls != [] {
      LineValues(ls[0]);
      DecodedSize(ls[1..]);
    }
  }

  // Decoding an encoding of a text gives the text back exactly when no line of it ends in an
  // encoded CR.
  lemma RoundTrip(ls: seq<Line>, rest: seq<byte>)
    requires AllOK(ls)
    ensures Text(EncodedAll(ls) + rest, |EncodedAll(ls)|) == MeaningAll(ls) <==> forall l :: l in ls ==> !LosesCr(l)
  {
    TextDecodes(ls, rest);
    DecodedSize(ls);
  }

  ghost predicate CrLfAt(t: seq<byte>, k: nat)
    requires k < |t| - 1
  {
    t[k] == CR && t[k + 1] == LF
  }

  // So it does for every encoding of a text in which no CR stands directly before an LF.
  lemma {:induction false} NoCrLf(ls: seq<Line>)
    requires AllOK(ls)
    requires forall k :: 0 <= k < |MeaningAll(ls)| - 1 ==> !CrLfAt(MeaningAll(ls), k)
    ensures forall l :: l in ls ==> !LosesCr(l)
  {
    if ls != [] {
      var t, m, u := MeaningAll(ls), Meaning(ls[0]), MeaningAll(ls[1..]);
      hide Meaning, LineOK, LosesCr;
      assert t == m + u;
      forall k | 0 <= k < |u| - 1 ensures !CrLfAt(u, k) {
        assert !CrLfAt(t, |m| + k);
      }
      NoCrLf(ls[1..]);
      LostCr(ls[0], u);
    }
  }

  lemma LostCr(l: Line, more: seq<byte>)
    requires LineOK(l)
    ensures LosesCr(l) ==> |Meaning(l)| >= 2 && CrLfAt(Meaning(l) + more, |Meaning(l)| - 2)
  {
    if LosesCr(l) {
      LastValue(l.items);
    }
  }

  lemma {:induction false} LastValue(items: seq<Item>)
    requires ItemsOK(items) && EndsInHexCr(items)
    ensures Values(items) != [] && Last(Values(items)) == CR
  {
    if items[1..] != [] { LastValue(items[1..]); }
  }

  // "=0D" and a line break: the CR is lost.
  lemma CrLost()
    ensures var l := Line([Hex(48, 68)], true, []);
            LineOK(l) && LosesCr(l) && Meaning(l) == [CR, LF] && DecodedAll([l]) == [LF]
  {
    var i := Hex(48, 68);
    assert [i][1..] == [];
    assert Codes([i]) == [EQUALS, 48, 68] && Values([i]) == [CR];
    assert [Line([i], true, [])][1..] == [];
  }
}
