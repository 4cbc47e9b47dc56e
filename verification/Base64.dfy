// mutt_decode_base64 (handler.c) against the one-shot decoding of RFC 2045, section 6.8, and the
// encoder of mutt/base64.c.
module Base64 {
  import opened Sequences
  import opened HandlerState
  import opened Wrappers

  // Index64: the six bits of a character of the alphabet, -1 for any other.
  function Base64val(ch: byte): (v: int)
    ensures -1 <= v < 64
  {
    if 65 <= ch <= 90 then ch - 65
    else if 97 <= ch <= 122 then ch - 71
    else if 48 <= ch <= 57 then ch + 4
    else if ch == 43 then 62
    else if ch == 47 then 63
    else -1
  }

  // B64Chars
  function B64Char(v: int): (ch: byte)
    requires 0 <= v < 64
    ensures Base64val(ch) == v
  {
    if v < 26 then v + 65 else if v < 52 then v + 71 else if v < 62 then v - 4 else if v == 62 then 43 else 47
  }

  const UPPER := "ABCDEFGHIJKLMNOPQRSTUVWXYZ"
  const LOWER := "abcdefghijklmnopqrstuvwxyz"
  const OTHER := "0123456789+/"

  // The alphabet of RFC 2045, section 6.8, table 1, in which = has no value.
  lemma AlphabetIs(v: int, ch: byte)
    requires 0 <= v < 64
    ensures var alphabet := "ABCDEFGHIJKLMNOPQRSTUVWXYZ" + "abcdefghijklmnopqrstuvwxyz" + "0123456789+/";
      && B64Char(v) == alphabet[v] as int
      && (Base64val(ch) == -1 <==> ch as char !in alphabet)
      && (Base64val(ch) != -1 ==> alphabet[Base64val(ch)] as int == ch)
      && (IsLetter(ch) <==> ch as char in alphabet || ch == 61)
  {
    hide Base64val, B64Char, IsLetter;
    LetterIs(v);
    ValueIs(ch);
    InAlphabet(UPPER + LOWER + OTHER, ch);
    LetterHas(ch);
    if Base64val(ch) != -1 { LetterIs(Base64val(ch)); }
  }

  lemma LetterHas(ch: byte)
    ensures IsLetter(ch) <==> Base64val(ch) != -1 || ch == 61
  {
  }

  lemma InAlphabet(alphabet: string, ch: byte)
    requires alphabet == UPPER + LOWER + OTHER
    ensures ch as char in alphabet <==> Base64val(ch) != -1
  {
    hide Base64val, B64Char, UPPER, LOWER, OTHER;
    ValueIs(ch);
    AlphabetSize();
    if Base64val(ch) != -1 {
      LetterIs(Base64val(ch));
      assert alphabet[Base64val(ch)] == ch as char;
    } else if ch as char in alphabet {
      var i :| 0 <= i < |alphabet| && alphabet[i] == ch as char;
      LetterIs(i);
    }
  }

  lemma AlphabetSize()
    ensures |UPPER| == 26 && |LOWER| == 26 && |OTHER| == 12
  {
  }

  lemma LetterIs(v: int)
    requires 0 <= v < 64
    ensures B64Char(v) == (UPPER + LOWER + OTHER)[v] as int && Base64val(B64Char(v)) == v
  {
    if v < 26 {
      UpperIs(v);
    } else if v < 52 {
      LowerIs(v - 26);
    } else {
      OtherIs(v - 52);
    }
  }

  lemma UpperIs(v: int)
    requires 0 <= v < 26
    ensures UPPER[v] as int == v + 65
  {
  }

  lemma LowerIs(v: int)
    requires 0 <= v < 26
    ensures LOWER[v] as int == v + 97
  {
  }

  lemma OtherIs(v: int)
    requires 0 <= v < 12
    ensures OTHER[v] as int == B64Char(v + 52)
  {
  }

  lemma ValueIs(ch: byte)
    ensures -1 <= Base64val(ch) < 64 && (Base64val(ch) != -1 ==> B64Char(Base64val(ch)) == ch)
  {
  }

  predicate IsLetter(ch: byte) {
    ch < 128 && (Base64val(ch) != -1 || ch == EQUALS)
  }

  // The three bytes of a quad, C's shifts and masks written as arithmetic.  Only the first can be
  // made from padding (whose value is -1), and is then negative.
  function First(c1: int, c2: int): (ch: int)
    requires -1 <= c1 < 64 && -1 <= c2 < 64
    ensures -4 <= ch < 256
  {
    if c2 == -1 then -1 else 4 * c1 + c2 / 16
  }

  function Second(c2: int, c3: int): (ch: int)
    requires -1 <= c2 < 64 && 0 <= c3 < 64
    ensures 0 <= ch < 256
  {
    (c2 % 16) * 16 + c3 / 4
  }

  function Third(c3: int, c4: int): (ch: int)
    requires 0 <= c3 < 64 && 0 <= c4 < 64
    ensures 0 <= ch < 256
  {
    (c3 % 4) * 64 + c4
  }

  // Four letters are a number of 24 bits, the first letter first; so are the three bytes.
  lemma BitsIs(c1: int, c2: int, c3: int, c4: int)
    requires 0 <= c1 < 64 && 0 <= c2 < 64 && 0 <= c3 < 64 && 0 <= c4 < 64
    ensures First(c1, c2) * 65536 + Second(c2, c3) * 256 + Third(c3, c4) == c1 * 262144 + c2 * 4096 + c3 * 64 + c4
  {
  }

  // --- the one-shot decoder ---

  ghost function Letters(s: seq<byte>): (f: seq<byte>)
    ensures forall i :: 0 <= i < |f| ==> IsLetter(f[i])
  {
    if s == [] then [] else (if IsLetter(s[0]) then [s[0]] else []) + Letters(s[1..])
  }

  // Quad by quad, up to the first padded one; an incomplete quad is dropped.
  ghost function Decode(f: seq<byte>): seq<byte>
    requires forall i :: 0 <= i < |f| ==> IsLetter(f[i])
  {
    if |f| < 4 then []
    else QuadBytes(f[0], f[1], f[2], f[3]) + if f[2] == EQUALS || f[3] == EQUALS then [] else Decode(f[4..])
  }

  ghost function QuadBytes(a: byte, b: byte, c: byte, d: byte): seq<byte>
    requires IsLetter(c) && IsLetter(d)
  {
    [First(Base64val(a), Base64val(b)) % 256] +
    if c == EQUALS then []
    else [Second(Base64val(b), Base64val(c))] + if d == EQUALS then [] else [Third(Base64val(c), Base64val(d))]
  }

  // What is written for the decoded bytes: text loses the CR of each CRLF.
  ghost function Shown(bs: seq<byte>, istext: bool): seq<byte> {
    if istext then CrLf(bs) else bs
  }

  // The part of it that can be written before the next byte is known.
  ghost function Sure(bs: seq<byte>, istext: bool): seq<byte> {
    if istext then Ready(bs) else bs
  }

  lemma SureSnoc(bs: seq<byte>, ch: int, istext: bool)
    requires -4 <= ch < 256
    ensures var b := ch % 256; var cr := istext && EndsInCr(bs);
            && Sure(bs + [b], istext) == Sure(bs, istext) + (if cr && ch != LF then [CR] else []) + (if istext && ch == CR then [] else [b])
            && ((istext && EndsInCr(bs + [b])) <==> (istext && ch == CR))
  {
    ReadySnoc(bs, ch % 256);
  }

  // --- the decoder ---

  // Reads on to the next four characters of the alphabet.
  method ReadQuad(st: State, buf: array<byte>, len0: nat) returns (i: nat, len: nat)
    requires st.Valid() && buf.Length == 5
    modifies st`pos, buf
    ensures st.Valid() && i <= 4 && old(st.pos) <= st.pos && Stop(st, len) == old(Stop(st, len0))
    ensures forall k :: 0 <= k < i ==> IsLetter(buf[k])
    ensures Letters(st.input[old(st.pos)..old(Stop(st, len0))]) == buf[..i] + Letters(st.input[st.pos..Stop(st, len)])
    ensures i == 4 || st.pos == Stop(st, len)
    ensures i == 4 ==> len < len0
  {
    hide Letters;
    i, len := 0, len0;
    ghost var stop := Stop(st, len);
    ghost var all := Letters(st.input[st.pos..stop]);
    while i < 4 && len > 0
      invariant st.Valid() && i <= 4 && old(st.pos) <= st.pos && Stop(st, len) == stop
      invariant forall k :: 0 <= k < i ==> IsLetter(buf[k])
      invariant all == buf[..i] + Letters(st.input[st.pos..stop])
      invariant len <= len0 && (i > 0 ==> len < len0)
    {
      if st.pos == |st.input| {
        break;
      }
      var ch := st.input[st.pos];
      LettersStep(st.input, st.pos, stop, buf[..i]);
      st.pos := st.pos + 1;
      if IsLetter(ch) {
        buf[i] := ch;
        i := i + 1;
      }
      len := len - 1;
    }
  }

  lemma LettersStep(input: seq<byte>, pos: nat, stop: nat, front: seq<byte>)
    requires pos < stop <= |input|
    ensures front + Letters(input[pos..stop])
            == (if IsLetter(input[pos]) then front + [input[pos]] else front) + Letters(input[pos + 1..stop])
  {
    assert input[pos..stop][1..] == input[pos + 1..stop];
  }

  // The lines that follow each decoded character.  t is what they write.
  method PutByte(bufi: array<byte>, l0: nat, cr0: bool, ch: int, istext: bool, ghost done: seq<byte>)
      returns (l: nat, cr: bool, ghost t: seq<byte>)
    requires l0 + 2 <= bufi.Length && -4 <= ch < 256 && cr0 == (istext && EndsInCr(done))
    modifies bufi
    ensures l <= l0 + 2 && l <= bufi.Length && cr == (istext && EndsInCr(done + [ch % 256]))
    ensures bufi[..l] == old(bufi[..l0]) + t && Sure(done + [ch % 256], istext) == Sure(done, istext) + t
  {
    SureSnoc(done, ch, istext);
    l, cr := l0, cr0;
    if cr && ch != LF {
      bufi[l] := CR;
      l := l + 1;
    }
    cr := false;
    if istext && ch == CR {
      cr := true;
    } else {
      bufi[l] := ch % 256;
      l := l + 1;
    }
    t := bufi[l0..l];
  }

  // The characters of one quad.  `more` is false when a padded one ends the text.
  method PutQuad(buf: array<byte>, bufi: array<byte>, l0: nat, cr0: bool, istext: bool, ghost done: seq<byte>)
      returns (l: nat, cr: bool, more: bool, ghost t: seq<byte>)
    requires buf.Length == 5 && buf != bufi && l0 + 6 <= bufi.Length && cr0 == (istext && EndsInCr(done))
    requires forall k :: 0 <= k < 4 ==> IsLetter(buf[k])
    modifies bufi
    ensures l <= l0 + 6 && l <= bufi.Length && more == (buf[2] != EQUALS && buf[3] != EQUALS)
    ensures cr == (istext && EndsInCr(done + QuadBytes(buf[0], buf[1], buf[2], buf[3])))
    ensures bufi[..l] == old(bufi[..l0]) + t
    ensures Sure(done + QuadBytes(buf[0], buf[1], buf[2], buf[3]), istext) == Sure(done, istext) + t
  {
    hide *;
    QuadIs(buf[0], buf[1], buf[2], buf[3], done);
    var c1, c2 := Base64val(buf[0]), Base64val(buf[1]);
    ghost var u: seq<byte>;
    var ch := First(c1, c2);
    ghost var d1 := done + [ch % 256];
    l, cr, t := PutByte(bufi, l0, cr0, ch, istext, done);
    if buf[2] == EQUALS {
      return l, cr, false, t;
    }
    var c3 := Base64val(buf[2]);
    ch := Second(c2, c3);
    ghost var d2 := d1 + [ch % 256];
    l, cr, u := PutByte(bufi, l, cr, ch, istext, d1);
    t := t + u;
    if buf[3] == EQUALS {
      return l, cr, false, t;
    }
    var c4 := Base64val(buf[3]);
    ch := Third(c3, c4);
    l, cr, u := PutByte(bufi, l, cr, ch, istext, d2);
    t := t + u;
    more := true;
  }

  lemma QuadIs(a: byte, b: byte, c: byte, d: byte, done: seq<byte>)
    requires IsLetter(c) && IsLetter(d)
    ensures c != EQUALS ==> Base64val(c) >= 0
    ensures d != EQUALS ==> Base64val(d) >= 0
    ensures var d1 := done + [First(Base64val(a), Base64val(b)) % 256];
      done + QuadBytes(a, b, c, d) ==
      if c == EQUALS then d1
      else
        var d2 := d1 + [Second(Base64val(b), Base64val(c)) % 256];
        if d == EQUALS then d2 else d2 + [Third(Base64val(c), Base64val(d)) % 256]
  {
    hide First, Second, Third, Base64val;
    LetterVal(c);
    LetterVal(d);
  }

  lemma LetterVal(c: byte)
    requires IsLetter(c)
    ensures c != EQUALS ==> Base64val(c) >= 0
  {
  }

  lemma DecodeQuad(quad: seq<byte>, rest: seq<byte>, done: seq<byte>)
    requires |quad| == 4 && forall i :: 0 <= i < 4 ==> IsLetter(quad[i])
    requires forall i :: 0 <= i < |rest| ==> IsLetter(rest[i])
    ensures forall i :: 0 <= i < |quad + rest| ==> IsLetter((quad + rest)[i])
    ensures done + Decode(quad + rest)
            == (done + QuadBytes(quad[0], quad[1], quad[2], quad[3])) + if quad[2] != EQUALS && quad[3] != EQUALS then Decode(rest) else []
  {
    hide QuadBytes;
    assert (quad + rest)[4..] == rest;
    var q, more := QuadBytes(quad[0], quad[1], quad[2], quad[3]), if quad[2] != EQUALS && quad[3] != EQUALS then Decode(rest) else [];
    assert Decode(quad + rest) == q + more;
    Assoc(done, q, more);
  }

  lemma Partial(part: seq<byte>, input: seq<byte>, stop: nat, done: seq<byte>)
    requires |part| < 4 && stop <= |input| && forall i :: 0 <= i < |part| ==> IsLetter(part[i])
    ensures Letters(input[stop..stop]) == [] && part + [] == part && done + Decode(part) == done
  {
    assert input[stop..stop] == [];
  }

  lemma SureNone(istext: bool)
    ensures Sure([], istext) == [] && !EndsInCr([])
  {
  }

  lemma AllShown(done: seq<byte>, istext: bool)
    ensures Shown(done, istext) == Sure(done, istext) + if istext && EndsInCr(done) then [CR] else []
  {
    ReadyAll(done);
  }

  // The body of the loop: a quad is read and decoded, and the buffer written out when it is
  // nearly full.  `more` is false after padding and at the end.
  method DecodeStep(st: State, buf: array<byte>, bufi: array<byte>, len0: nat, cr0: bool, l0: nat, istext: bool, ghost stop: nat,
        ghost out0: seq<byte>, ghost pend0: bool, ghost done: seq<byte>, ghost written: seq<byte>)
      returns (more: bool, len: nat, cr: bool, l: nat, ghost bs: seq<byte>, ghost ws: seq<byte>)
    requires st.Valid() && buf.Length == 5 && bufi.Length == BUFFER_SIZE && buf != bufi && l0 + 8 < bufi.Length && len0 > 0
    requires cr0 == (istext && EndsInCr(done)) && Sure(done, istext) == written + bufi[..l0]
    requires Flushed(st, out0, pend0, written) && stop == Stop(st, len0)
    modifies st, buf, bufi
    ensures st.Valid() && l < bufi.Length && (more ==> l + 8 < bufi.Length && stop == Stop(st, len) && len < len0)
    ensures cr == (istext && EndsInCr(done + bs)) && Sure(done + bs, istext) == (written + ws) + bufi[..l]
    ensures Flushed(st, out0, pend0, written + ws)
    ensures done + Decode(Letters(st.input[old(st.pos)..stop]))
            == (done + bs) + if more then Decode(Letters(st.input[st.pos..stop])) else []
  {
    hide Rendered, PendingAfter, Decode, Letters, QuadBytes, Sure, EndsInCr, Flushed;
    more, len, cr, l, bs, ws := false, len0, cr0, l0, [], [];
    assert written + ws == written;
    var i;
    ghost var t;
    i, len := ReadQuad(st, buf, len);
    if i != 4 {
      Partial(buf[..i], st.input, stop, done);
      assert done + bs == done;
      return;
    }
    DecodeQuad(buf[..4], Letters(st.input[st.pos..stop]), done);
    ghost var waiting := bufi[..l];
    l, cr, more, t := PutQuad(buf, bufi, l, cr, istext, done);
    bs := QuadBytes(buf[0], buf[1], buf[2], buf[3]);
    Assoc(written, waiting, t);
    if more && l + 8 >= bufi.Length {
      ws := bufi[..l];
      l := Flush(st, bufi, l, out0, pend0, written);
    }
  }

  // Whatever the quad and buffer boundaries, the output is that of the one-shot decoder, with the
  // CRLFs of text made LFs; the buffer never overflows.
  method DecodeBase64(st: State, len0: nat, istext: bool)
    requires st.Valid()
    modifies st
    ensures st.Valid() && !st.pending
    ensures st.output == old(st.output) + Rendered(st.prefix, istext || old(st.pending),
                           Shown(Decode(Letters(st.input[old(st.pos)..old(Stop(st, len0))])), istext))
  {
    hide Rendered, PendingAfter, Decode, Letters, Sure, Shown, EndsInCr, Flushed;
    var len, buf, bufi, cr, more := len0, new byte[5], new byte[BUFFER_SIZE], false, true;
    var l: nat := 0;
    if istext {
      st.pending := true;
    }
    ghost var out0, pend0, stop := st.output, st.pending, Stop(st, len);
    ghost var all := Decode(Letters(st.input[st.pos..stop]));
    ghost var done: seq<byte>, written: seq<byte>, bs, ws := [], [], [], [];
    NothingYet(st, pend0);
    SureNone(istext);
    while len > 0 && more
      invariant st.Valid() && l < bufi.Length && (more ==> l + 8 < bufi.Length && Stop(st, len) == stop)
      invariant cr == (istext && EndsInCr(done)) && Sure(done, istext) == written + bufi[..l]
      invariant Flushed(st, out0, pend0, written)
      invariant all == done + if more then Decode(Letters(st.input[st.pos..stop])) else []
      decreases more, len
    {
      more, len, cr, l, bs, ws := DecodeStep(st, buf, bufi, len, cr, l, istext, stop, out0, pend0, done, written);
      done, written := done + bs, written + ws;
    }
    if more {
      Partial([], st.input, stop, done);
    }
    assert all == done;
    ghost var waiting := bufi[..l];
    AllShown(done, istext);
    if cr {
      bufi[l] := CR;
      l := l + 1;
      Assoc(written, waiting, [CR]);
    }
    assert written + bufi[..l] == Shown(all, istext);
    l := Flush(st, bufi, l, out0, pend0, written);
    Output(st, out0, pend0, Shown(all, istext));
    st.pending := false;
  }

  // --- the encoder ---

  function Encode(bs: seq<byte>): seq<byte> {
    if bs == [] then []
    else if |bs| == 1 then [B64Char(bs[0] / 4), B64Char((bs[0] % 4) * 16), EQUALS, EQUALS]
    else if |bs| == 2 then [B64Char(bs[0] / 4), B64Char((bs[0] % 4) * 16 + bs[1] / 16), B64Char((bs[1] % 16) * 4), EQUALS]
    else EncodeTriple(bs[0], bs[1], bs[2]) + Encode(bs[3..])
  }

  function EncodeTriple(a: byte, b: byte, c: byte): (q: seq<byte>)
    ensures |q| == 4
  {
    [B64Char(a / 4), B64Char((a % 4) * 16 + b / 16), B64Char((b % 16) * 4 + c / 64), B64Char(c % 64)]
  }

  // mutt_b64_encode, for an output buffer of outlen bytes: whole quads, as many as fit.
  method B64Encode(bs: seq<byte>, outlen0: nat) returns (out: seq<byte>)
    ensures out <= Encode(bs) && |out| % 4 == 0
    ensures |Encode(bs)| < outlen0 ==> out == Encode(bs)
    ensures outlen0 > 0 ==> |out| < outlen0
  {
    hide *;
    out := [];
    var i, outlen := 0, outlen0;
    EncodeStart(bs);
    while |bs| - i >= 3 && outlen > 4
      invariant i <= |bs| && outlen + |out| == outlen0 && |out| % 4 == 0 && (outlen0 > 0 ==> outlen > 0)
      invariant Encode(bs) == out + Encode(bs[i..])
    {
      EncodeStep(bs, i, out);
      out := out + EncodeTriple(bs[i], bs[i + 1], bs[i + 2]);
      outlen := outlen - 4;
      i := i + 3;
    }
    EncodeSize(bs[i..]);
    if |bs| - i > 0 && outlen > 4 {
      EncodeLast(bs, i);
      var a := bs[i];
      var fragment := (a % 4) * 16;
      if |bs| - i > 1 {
        fragment := fragment + bs[i + 1] / 16;
      }
      out := out + [B64Char(a / 4), B64Char(fragment), if |bs| - i < 2 then EQUALS else B64Char((bs[i + 1] % 16) * 4), EQUALS];
    }
  }

  lemma EncodeStart(bs: seq<byte>)
    ensures Encode(bs) == [] + Encode(bs[0..])
  {
    assert bs[0..] == bs;
  }

  lemma EncodeStep(bs: seq<byte>, i: nat, out: seq<byte>)
    requires i + 3 <= |bs|
    ensures out + Encode(bs[i..]) == (out + EncodeTriple(bs[i], bs[i + 1], bs[i + 2])) + Encode(bs[i + 3..])
  {
    hide EncodeTriple;
    assert bs[i..][3..] == bs[i + 3..];
  }

  lemma EncodeLast(bs: seq<byte>, i: nat)
    requires i < |bs| < i + 3
    ensures Encode(bs[i..]) == [B64Char(bs[i] / 4), B64Char((bs[i] % 4) * 16 + if |bs| - i > 1 then bs[i + 1] / 16 else 0),
                                if |bs| - i < 2 then EQUALS else B64Char((bs[i + 1] % 16) * 4), EQUALS]
  {
    hide B64Char;
  }

  lemma EncodeSize(bs: seq<byte>)
    ensures bs == [] <==> Encode(bs) == []
    ensures bs != [] ==> |Encode(bs)| >= 4
  {
  }

  // Splitting three bytes into sixes of bits and putting them together again.
  lemma BitsBack(a: byte, b: byte, c: byte)
    ensures var c2, c3 := (a % 4) * 16 + b / 16, (b % 16) * 4 + c / 64;
            && 0 <= a / 4 < 64 && 0 <= c2 < 64 && 0 <= c3 < 64 && 0 <= c % 64 < 64
            && First(a / 4, c2) == a && Second(c2, c3) == b && Third(c3, c % 64) == c
  {
    SplitBack(a % 4, b / 16, 16);
    SplitBack(b % 16, c / 64, 4);
  }

  lemma SplitBack(hi: nat, lo: nat, base: nat)
    requires (base == 16 && lo < 16) || (base == 4 && lo < 4)
    ensures (hi * base + lo) / base == hi && (hi * base + lo) % base == lo
  {
  }

  lemma LetterOf(v: int)
    requires 0 <= v < 64
    ensures IsLetter(B64Char(v)) && Base64val(B64Char(v)) == v && B64Char(v) != EQUALS
  {
  }

  lemma TripleBack(a: byte, b: byte, c: byte)
    ensures var q := EncodeTriple(a, b, c);
            && (forall i :: 0 <= i < 4 ==> IsLetter(q[i])) && q[2] != EQUALS && q[3] != EQUALS
            && QuadBytes(q[0], q[1], q[2], q[3]) == [a, b, c]
  {
    hide B64Char, Base64val, IsLetter, First, Second, Third;
    BitsBack(a, b, c);
    LetterOf(a / 4);
    LetterOf((a % 4) * 16 + b / 16);
    LetterOf((b % 16) * 4 + c / 64);
    LetterOf(c % 64);
  }

  // The last one or two bytes, and the quad they are padded to.
  lemma PaddedBack(a: byte, b: byte)
    ensures var q := Encode([a]);
            |q| == 4 && (forall i :: 0 <= i < 4 ==> IsLetter(q[i])) && q[2] == EQUALS && QuadBytes(q[0], q[1], q[2], q[3]) == [a]
    ensures var q := Encode([a, b]);
            |q| == 4 && (forall i :: 0 <= i < 4 ==> IsLetter(q[i])) && q[3] == EQUALS && QuadBytes(q[0], q[1], q[2], q[3]) == [a, b]
  {
    hide B64Char, Base64val, IsLetter, First, Second, Third;
    BitsBack(a, 0, 0);
    BitsBack(a, b, 0);
    LetterOf(a / 4);
    LetterOf((a % 4) * 16);
    LetterOf((a % 4) * 16 + b / 16);
    LetterOf((b % 16) * 4);
    PaddingIsLetter();
  }

  lemma PaddingIsLetter()
    ensures IsLetter(EQUALS)
  {
  }

  // Decoding the encoder's output gives the bytes back.
  lemma {:induction false} DecodeEncode(bs: seq<byte>)
    ensures forall i :: 0 <= i < |Encode(bs)| ==> IsLetter(Encode(bs)[i])
    ensures Decode(Encode(bs)) == bs
  {
    hide EncodeTriple, QuadBytes, IsLetter, B64Char;
    if |bs| == 1 {
      PaddedBack(bs[0], 0);
      assert bs == [bs[0]];
    } else if |bs| == 2 {
      PaddedBack(bs[0], bs[1]);
      assert bs == [bs[0], bs[1]];
    } else if |bs| > 2 {
      var q := EncodeTriple(bs[0], bs[1], bs[2]);
      TripleBack(bs[0], bs[1], bs[2]);
      DecodeEncode(bs[3..]);
      assert (q + Encode(bs[3..]))[4..] == Encode(bs[3..]);
    }
  }

  // The letters f with other bytes put in: between[i] before the i-th letter, and the last of them at the end.
  ghost function Interspersed(f: seq<byte>, between: seq<seq<byte>>): seq<byte>
    requires |between| == |f| + 1
  {
    if f == [] then between[0] else between[0] + [f[0]] + Interspersed(f[1..], between[1..])
  }

  lemma {:induction false} LettersAppend(a: seq<byte>, b: seq<byte>)
    ensures Letters(a + b) == Letters(a) + Letters(b)
  {
    if a == [] {
      assert a + b == b;
    } else {
      hide IsLetter;
      LettersAppend(a[1..], b);
      assert (a + b)[1..] == a[1..] + b;
      Assoc(if IsLetter(a[0]) then [a[0]] else [], Letters(a[1..]), Letters(b));
    }
  }

  lemma {:induction false} NoLetters(s: seq<byte>)
    requires forall i :: 0 <= i < |s| ==> !IsLetter(s[i])
    ensures Letters(s) == []
  {
    if s != [] { NoLetters(s[1..]); }
  }

  lemma {:induction false} LettersOf(f: seq<byte>, between: seq<seq<byte>>)
    requires |between| == |f| + 1 && forall i :: 0 <= i < |f| ==> IsLetter(f[i])
    requires forall i, j :: 0 <= i < |between| && 0 <= j < |between[i]| ==> !IsLetter(between[i][j])
    ensures Letters(Interspersed(f, between)) == f
  {
    hide IsLetter;
    NoLetters(between[0]);
    if f != [] {
      var rest := Interspersed(f[1..], between[1..]);
      LettersAppend(between[0] + [f[0]], rest);
      LettersAppend(between[0], [f[0]]);
      assert Letters([f[0]]) == [f[0]] by { assert [f[0]][1..] == []; }
      LettersOf(f[1..], between[1..]);
      assert [] + [f[0]] + f[1..] == f;
    }
  }

  // What mutt_decode_base64 writes for encoded bytes, with line breaks and any other bytes outside the
  // alphabet put in anywhere: the bytes, or for text the bytes with their CRLFs made LFs.
  lemma RoundTrip(bs: seq<byte>, between: seq<seq<byte>>, input: seq<byte>, pos: nat, stop: nat, istext: bool, prefix: Option<seq<byte>>, pending: bool)
    requires pos <= stop <= |input| && |between| == |Encode(bs)| + 1 && input[pos..stop] == Interspersed(Encode(bs), between)
    requires forall i, j :: 0 <= i < |between| && 0 <= j < |between[i]| ==> !IsLetter(between[i][j])
    ensures Rendered(prefix, istext || pending, Shown(Decode(Letters(input[pos..stop])), istext))
            == Rendered(prefix, istext || pending, if istext then CrLf(bs) else bs)
  {
    hide Rendered, CrLf, IsLetter;
    DecodeEncode(bs);
    LettersOf(Encode(bs), between);
  }
}
