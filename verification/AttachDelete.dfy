// copy.c: saving a message without its deleted attachments.  One recursion over the MIME tree
// predicts the new Content-Length and line count, another one writes the bytes.
module AttachDelete {
  import opened Sequences
  import opened Numerals
  import opened Wrappers

  // The parts of `struct Body` that both recursions read.
  datatype Body = Body(hdrOffset: nat, offset: nat, length: nat, deleted: bool, parts: seq<Body>)

  // A file open for reading, and one open for writing at its end.
  class InFile {
    const data: string
    var pos: nat

    constructor (data: string)
      ensures this.data == data && pos == 0
    {
      this.data := data;
      pos := 0;
    }
  }

  class OutFile {
    var data: string

    constructor ()
      ensures data == ""
    {
      data := "";
    }
  }

  // mutt_file_copy_bytes: at most `size` bytes, 2048 at a time.
  method CopyBytes(fin: InFile, fout: OutFile, size: nat)
    requires fin.pos + size <= |fin.data|
    modifies fin`pos, fout
    ensures fin.pos == old(fin.pos) + size
    ensures fout.data == old(fout.data) + fin.data[old(fin.pos)..fin.pos]
  {
    var left := size;
    while left > 0
      invariant 0 <= left <= size && fin.pos == old(fin.pos) + (size - left)
      invariant fout.data == old(fout.data) + fin.data[old(fin.pos)..fin.pos]
    {
      var chunk := if left > 2048 then 2048 else left;
      ghost var before := fin.pos;
      fout.data := fout.data + fin.data[fin.pos..fin.pos + chunk];
      fin.pos := fin.pos + chunk;
      assert fin.data[old(fin.pos)..fin.pos] == fin.data[old(fin.pos)..before] + fin.data[before..fin.pos];
      left := left - chunk;
    }
  }

  // --- well-nested trees ---

  function End(b: Body): nat { b.offset + b.length }

  // The parts lie one after the other between lo and hi, headers included.
  ghost predicate Nested(ps: seq<Body>, lo: int, hi: int) {
    if ps == [] then lo <= hi
    else
      var p := ps[0];
      lo <= p.hdrOffset <= p.offset && (p.deleted || Nested(p.parts, p.offset, End(p))) && Nested(ps[1..], End(p), hi)
  }

  // --- what is written ---

  // The first line of the header that replaces a deleted part, and the second.
  function StubType(): string {
    "Content-Type: " + "message/external-body; " + "access-type=" + "x-mutt-deleted;"
  }

  function StubDetail(date: string, length: nat): string {
    "\texpiration=" + date + "; length=" + Decimal(length)
  }

  function Stub(date: string, length: nat): string {
    StubType() + "\n" + StubDetail(date, length) + "\n" + "\n"
  }

  // The stub names the length of what it stands for.
  lemma StubSays(date: string, length: nat) returns (s: string)
    ensures IsNumeral(s, length)
    ensures Stub(date, length) ==
      ("Content-Type: " + "message/external-body; " + "access-type=" + "x-mutt-deleted;") + "\n" +
      ("\texpiration=" + date + "; length=" + s) + "\n" + "\n"
  {
    s := Decimal(length);
    DecimalValue(length);
    hide Decimal, IsNumeral;
  }

  // The deleted parts that are not inside another deleted part, in order.
  ghost function Outermost(ps: seq<Body>): seq<Body> {
    if ps == [] then [] else (if ps[0].deleted then [ps[0]] else Outermost(ps[0].parts)) + Outermost(ps[1..])
  }

  // The bytes from pos to hi, where each part of ds gets a stub before its headers and loses its body.
  ghost function Splice(data: string, pos: int, ds: seq<Body>, hi: int, date: string): string
    decreases |ds|
  {
    if ds == [] then Slice(data, pos, hi)
    else
      var d := ds[0];
      Slice(data, pos, d.hdrOffset) + Stub(date, d.length) + Slice(data, d.hdrOffset, d.offset) +
      Splice(data, End(d), ds[1..], hi, date)
  }

  function Slice(data: string, lo: int, hi: int): string {
    if 0 <= lo <= hi <= |data| then data[lo..hi] else ""
  }

  // The deleted parts follow one another between lo and hi.
  ghost predicate InOrder(ds: seq<Body>, lo: int, hi: int) {
    if ds == [] then lo <= hi
    else lo <= ds[0].hdrOffset <= ds[0].offset && InOrder(ds[1..], End(ds[0]), hi)
  }

  lemma {:induction false} OutermostInOrder(ps: seq<Body>, lo: int, hi: int)
    requires Nested(ps, lo, hi)
    ensures InOrder(Outermost(ps), lo, hi) && lo <= hi
    decreases ps
  {
    if ps != [] {
      var p := ps[0];
      OutermostInOrder(ps[1..], End(p), hi);
      if p.deleted {
        assert ([p] + Outermost(ps[1..]))[1..] == Outermost(ps[1..]);
      } else {
        OutermostInOrder(p.parts, p.offset, End(p));
        InOrderWiden(Outermost(p.parts), p.offset, End(p), lo);
        InOrderAppend(Outermost(p.parts), Outermost(ps[1..]), lo, End(p), hi);
      }
    }
  }

  lemma InOrderWiden(ds: seq<Body>, lo: int, hi: int, lower: int)
    requires InOrder(ds, lo, hi) && lower <= lo
    ensures InOrder(ds, lower, hi)
  {
  }

  lemma {:induction false} InOrderAppend(a: seq<Body>, b: seq<Body>, lo: int, mid: int, hi: int)
    requires InOrder(a, lo, mid) && InOrder(b, mid, hi)
    ensures InOrder(a + b, lo, hi)
  {
    if a == [] {
      assert [] + b == b;
      InOrderWiden(b, mid, hi, lo);
    } else {
      assert (a + b)[1..] == a[1..] + b;
      InOrderAppend(a[1..], b, End(a[0]), mid, hi);
    }
  }

  // Splicing can be done in two stretches.
  lemma {:induction false} SpliceAppend(data: string, pos: int, a: seq<Body>, b: seq<Body>, mid: int, hi: int, date: string)
    requires 0 <= pos && InOrder(a, pos, mid) && InOrder(b, mid, hi) && hi <= |data|
    ensures Splice(data, pos, a + b, hi, date) == Splice(data, pos, a, mid, date) + Splice(data, mid, b, hi, date)
    decreases |a|
  {
    InOrderBounds(b, mid, hi);
    if a == [] {
      assert [] + b == b;
      SpliceFrom(data, pos, b, mid, hi, date);
    } else {
      var d := a[0];
      assert (a + b)[1..] == a[1..] + b;
      SpliceAppend(data, End(d), a[1..], b, mid, hi, date);
      var front := Slice(data, pos, d.hdrOffset) + Stub(date, d.length) + Slice(data, d.hdrOffset, d.offset);
      Assoc(front, Splice(data, End(d), a[1..], mid, date), Splice(data, mid, b, hi, date));
    }
  }

  // The bytes before the first deleted part are copied as they are.
  lemma SpliceFrom(data: string, pos: int, b: seq<Body>, mid: int, hi: int, date: string)
    requires 0 <= pos <= mid && InOrder(b, mid, hi) && hi <= |data|
    ensures Splice(data, pos, b, hi, date) == Slice(data, pos, mid) + Splice(data, mid, b, hi, date)
  {
    hide Stub;
    InOrderBounds(b, mid, hi);
    if b == [] {
      assert data[pos..hi] == data[pos..mid] + data[mid..hi];
    } else {
      var d := b[0];
      InOrderBounds(b[1..], End(d), hi);
      assert data[pos..d.hdrOffset] == data[pos..mid] + data[mid..d.hdrOffset];
      Assoc5(data[pos..mid], data[mid..d.hdrOffset], Stub(date, d.length), Slice(data, d.hdrOffset, d.offset),
        Splice(data, End(d), b[1..], hi, date));
    }
  }

  lemma Assoc5(a: string, b: string, c: string, d: string, e: string)
    ensures (a + b) + c + d + e == a + (b + c + d + e)
  {
  }

  lemma {:induction false} InOrderBounds(ds: seq<Body>, lo: int, hi: int)
    requires InOrder(ds, lo, hi)
    ensures lo <= hi
  {
    if ds != [] { InOrderBounds(ds[1..], End(ds[0]), hi); }
  }

  // --- copy_delete_attach ---

  // Everything from the current position to the end of b, without the deleted parts.
  method CopyDeleteAttach(b: Body, fin: InFile, fout: OutFile, date: string)
    requires Nested(b.parts, b.offset, End(b)) && End(b) <= |fin.data| && fin.pos <= b.offset
    modifies fin`pos, fout
    ensures fin.pos == End(b)
    ensures fout.data == old(fout.data) + Splice(fin.data, old(fin.pos), Outermost(b.parts), End(b), date)
    decreases b, 0
  {
    hide Stub, Splice, Slice, InOrder, Nested, Outermost, Deleted;
    ghost var pos0, out0, stop := fin.pos, fout.data, b.offset;
    ghost var done: seq<Body> := [];
    SpliceNone(fin.data, fin.pos, fin.pos, date);
    assert b.parts[0..] == b.parts && done + Outermost(b.parts) == Outermost(b.parts);
    for i := 0 to |b.parts|
      invariant Nested(b.parts[i..], stop, End(b)) && pos0 <= fin.pos <= stop
      invariant Outermost(b.parts) == done + Outermost(b.parts[i..])
      invariant InOrder(done, pos0, fin.pos)
      invariant fout.data == out0 + Splice(fin.data, pos0, done, fin.pos, date)
    {
      var part := b.parts[i];
      ghost var more, from := Deleted(part), fin.pos;
      PartStep(b.parts, i, stop, End(b), done);
      if part.deleted || part.parts != [] {
        CopyPart(part, fin, fout, date);
        SpliceMore(fin.data, pos0, done, more, from, fin.pos, date);
      }
      done := done + more;
      stop := End(part);
    }
    ghost var from := fin.pos;
    PartsEnd(b.parts, stop, End(b), done);
    CopyBytes(fin, fout, b.offset + b.length - fin.pos);
    SpliceNone(fin.data, from, fin.pos, date);
    SpliceMore(fin.data, pos0, done, [], from, fin.pos, date);
  }

  ghost function Deleted(part: Body): seq<Body> {
    if part.deleted then [part] else Outermost(part.parts)
  }

  lemma PartStep(ps: seq<Body>, i: nat, stop: int, hi: int, done: seq<Body>)
    requires i < |ps| && Nested(ps[i..], stop, hi) && Outermost(ps) == done + Outermost(ps[i..])
    ensures var part := ps[i];
            && stop <= part.hdrOffset <= part.offset && (part.deleted || Nested(part.parts, part.offset, End(part))) && End(part) <= hi
            && Nested(ps[i + 1..], End(part), hi)
            && Outermost(ps) == (done + Deleted(part)) + Outermost(ps[i + 1..])
            && (!part.deleted && part.parts == [] ==> Deleted(part) == [] && done + Deleted(part) == done)
  {
    assert ps[i..][0] == ps[i] && ps[i..][1..] == ps[i + 1..];
    OutermostInOrder(ps[i + 1..], End(ps[i]), hi);
    assert (done + Deleted(ps[i])) + Outermost(ps[i + 1..]) == done + (Deleted(ps[i]) + Outermost(ps[i + 1..]));
  }

  lemma PartsEnd(ps: seq<Body>, stop: int, hi: int, done: seq<Body>)
    requires Nested(ps[|ps|..], stop, hi) && Outermost(ps) == done + Outermost(ps[|ps|..])
    ensures stop <= hi && done == Outermost(ps) && done + [] == done
  {
    assert ps[|ps|..] == [];
  }

  // The body of the loop: up to the part, then its stub and headers, or what is left of it.
  method CopyPart(part: Body, fin: InFile, fout: OutFile, date: string)
    requires fin.pos <= part.hdrOffset <= part.offset && End(part) <= |fin.data|
    requires part.deleted || Nested(part.parts, part.offset, End(part))
    modifies fin`pos, fout
    ensures fin.pos == End(part)
    ensures fout.data == old(fout.data) + Splice(fin.data, old(fin.pos), Deleted(part), End(part), date)
    ensures InOrder(Deleted(part), old(fin.pos), End(part))
    decreases part, 1
  {
    hide Stub, Splice, Slice, InOrder, Outermost, Nested;
    ghost var from, out0 := fin.pos, fout.data;
    CopyBytes(fin, fout, part.hdrOffset - fin.pos);
    ghost var before := fin.data[from..part.hdrOffset];
    if part.deleted {
      fout.data := fout.data + Stub(date, part.length);
      CopyBytes(fin, fout, part.offset - fin.pos);
      fin.pos := part.offset + part.length;
      SpliceOne(fin.data, from, part, date);
      Assoc5(out0, before, Stub(date, part.length), fin.data[part.hdrOffset..part.offset], "");
    } else {
      OutermostInOrder(part.parts, part.offset, End(part));
      CopyDeleteAttach(part, fin, fout, date);
      InOrderWiden(Outermost(part.parts), part.offset, End(part), part.hdrOffset);
      InOrderWiden(Outermost(part.parts), part.offset, End(part), from);
      SpliceFrom(fin.data, from, Outermost(part.parts), part.hdrOffset, End(part), date);
      SliceIs(fin.data, from, part.hdrOffset);
      Assoc(out0, before, Splice(fin.data, part.hdrOffset, Outermost(part.parts), End(part), date));
    }
  }

  lemma SpliceNone(data: string, lo: int, hi: int, date: string)
    requires 0 <= lo <= hi <= |data|
    ensures Splice(data, lo, [], hi, date) == data[lo..hi] && InOrder([], lo, hi)
  {
  }

  lemma SpliceOne(data: string, pos: int, d: Body, date: string)
    requires 0 <= pos <= d.hdrOffset <= d.offset && End(d) <= |data|
    ensures Splice(data, pos, [d], End(d), date)
            == data[pos..d.hdrOffset] + Stub(date, d.length) + data[d.hdrOffset..d.offset]
    ensures InOrder([d], pos, End(d))
  {
    assert [d][1..] == [];
    assert Splice(data, End(d), [], End(d), date) == "";
  }

  lemma SliceIs(data: string, lo: int, hi: int)
    requires 0 <= lo <= hi <= |data|
    ensures Slice(data, lo, hi) == data[lo..hi]
  {
  }

  lemma SpliceMore(data: string, pos0: int, done: seq<Body>, more: seq<Body>, from: int, to: int, date: string)
    requires 0 <= pos0 && InOrder(done, pos0, from) && InOrder(more, from, to) && to <= |data|
    ensures Splice(data, pos0, done + more, to, date) == Splice(data, pos0, done, from, date) + Splice(data, from, more, to, date)
    ensures InOrder(done + more, pos0, to)
  {
    SpliceAppend(data, pos0, done, more, from, to, date);
    InOrderAppend(done, more, pos0, from, to);
  }

  // --- what is predicted ---

  ghost function Newlines(data: string, b: Body): nat {
    Count('\n', Slice(data, b.offset, End(b)))
  }

  // The lines lost: those of each outermost deleted body, less the three of its stub.
  ghost function NetLines(data: string, b: Body): int
    decreases b, 0
  {
    if b.deleted then Newlines(data, b) - 3 else NetAll(data, b.parts)
  }

  ghost function NetAll(data: string, ps: seq<Body>): int
    decreases ps, 1
  {
    if ps == [] then 0 else NetLines(data, ps[0]) + NetAll(data, ps[1..])
  }

  // The bytes gained (usually a negative number).
  ghost function Gain(b: Body, datelen: nat): int
    decreases b, 0
  {
    if b.deleted then (89 + datelen) - b.length + (|Decimal(b.length)| - 1) else GainAll(b.parts, datelen)
  }

  ghost function GainAll(ps: seq<Body>, datelen: nat): int
    decreases ps, 1
  {
    if ps == [] then 0 else Gain(ps[0], datelen) + GainAll(ps[1..], datelen)
  }

  // The number of lines lost by b, or by some part inside it, is exactly -1: the value that also
  // means failure.
  ghost predicate Collides(data: string, b: Body)
    decreases b
  {
    NetLines(data, b) == -1 || (!b.deleted && exists p :: p in b.parts && Collides(data, p))
  }

  // for (l = b->length; l; l--): count the newlines.
  method CountLines(fin: InFile, length: nat) returns (lines: nat)
    requires fin.pos + length <= |fin.data|
    modifies fin`pos
    ensures lines == Count('\n', fin.data[old(fin.pos)..old(fin.pos) + length])
  {
    lines := 0;
    var l := length;
    ghost var from := fin.pos;
    while l > 0
      invariant 0 <= l <= length && fin.pos == from + (length - l)
      invariant lines == Count('\n', fin.data[from..fin.pos])
    {
      var ch := fin.data[fin.pos];
      CountAppend('\n', fin.data[from..fin.pos], [ch]);
      assert fin.data[from..fin.pos + 1] == fin.data[from..fin.pos] + [ch];
      fin.pos := fin.pos + 1;
      if ch == '\n' {
        lines := lines + 1;
      }
      l := l - 1;
    }
  }

  // for (l = 10; length >= l; l *= 10): one more for every digit after the first.
  method ExtraDigits(length: nat) returns (extra: nat)
    ensures extra == |Decimal(length)| - 1
  {
    extra := 0;
    var l := 10;
    assert Pow10(1) == 10 * Pow10(0);
    while length >= l
      invariant l == Pow10(extra + 1) && |Decimal(length)| > extra
      decreases length - l
    {
      DecimalLength(length, extra + 1);
      extra := extra + 1;
      assert Pow10(extra + 1) == 10 * Pow10(extra);
      l := l * 10;
    }
    DecimalLength(length, extra + 1);
  }

  // count_delete_lines, whose result -1 means failure.
  method CountDeleteLines(fin: InFile, b: Body, length0: int, datelen: nat) returns (dellines: int, length: int)
    requires (b.deleted || Nested(b.parts, b.offset, End(b))) && End(b) <= |fin.data|
    modifies fin`pos
    ensures Collides(fin.data, b) <==> dellines == -1
    ensures dellines != -1 ==> dellines == NetLines(fin.data, b) && length == length0 + Gain(b, datelen)
    decreases b
  {
    dellines, length := 0, length0;
    if b.deleted {
      fin.pos := b.offset;
      dellines := CountLines(fin, b.length);
      dellines := dellines - 3;
      length := length - (b.length - (89 + datelen));
      var extra := ExtraDigits(b.length);
      length := length + extra;
    } else {
      ghost var stop := b.offset;
      assert b.parts[0..] == b.parts;
      for i := 0 to |b.parts|
        invariant Nested(b.parts[i..], stop, End(b))
        invariant dellines + NetAll(fin.data, b.parts[i..]) == NetAll(fin.data, b.parts)
        invariant length + GainAll(b.parts[i..], datelen) == length0 + GainAll(b.parts, datelen)
        invariant forall j :: 0 <= j < i ==> !Collides(fin.data, b.parts[j])
      {
        var part := b.parts[i];
        assert b.parts[i..][0] == part && b.parts[i..][1..] == b.parts[i + 1..];
        OutermostInOrder(b.parts[i + 1..], End(part), End(b));
        var del;
        del, length := CountDeleteLines(fin, part, length, datelen);
        if del == -1 {
          return -1, length;
        }
        dellines := dellines + del;
        stop := End(part);
      }
      assert b.parts[|b.parts|..] == [];
    }
  }

  // --- the prediction is what is written ---

  lemma {:induction false} GainIs(data: string, pos: int, ps: seq<Body>, lo: int, hi: int, date: string)
    requires 0 <= pos <= lo && Nested(ps, lo, hi) && hi <= |data| && '\n' !in date
    ensures |Splice(data, pos, Outermost(ps), hi, date)| == hi - pos + GainAll(ps, |date|)
    ensures Count('\n', Splice(data, pos, Outermost(ps), hi, date)) == Count('\n', Slice(data, pos, hi)) - NetAll(data, ps)
    decreases ps
  {
    hide Stub, InOrder, Splice, Count;
    OutermostInOrder(ps, lo, hi);
    if ps == [] {
      SpliceNone(data, pos, hi, date);
    } else {
      var p := ps[0];
      OutermostInOrder(ps[1..], End(p), hi);
      PartIs(data, pos, p, date);
      GainIs(data, End(p), ps[1..], End(p), hi, date);
      SpliceAppend(data, pos, Deleted(p), Outermost(ps[1..]), End(p), hi, date);
      CountAppend('\n', Splice(data, pos, Deleted(p), End(p), date), Splice(data, End(p), Outermost(ps[1..]), hi, date));
      SliceSplit(data, pos, End(p), hi);
    }
  }

  lemma SliceSplit(data: string, lo: int, mid: int, hi: int)
    requires 0 <= lo <= mid <= hi <= |data|
    ensures Slice(data, lo, hi) == Slice(data, lo, mid) + Slice(data, mid, hi)
    ensures Count('\n', Slice(data, lo, hi)) == Count('\n', Slice(data, lo, mid)) + Count('\n', Slice(data, mid, hi))
  {
    CountAppend('\n', Slice(data, lo, mid), Slice(data, mid, hi));
    assert data[lo..hi] == data[lo..mid] + data[mid..hi];
  }

  lemma {:induction false} PartIs(data: string, pos: int, p: Body, date: string)
    requires 0 <= pos <= p.hdrOffset <= p.offset && (p.deleted || Nested(p.parts, p.offset, End(p))) && End(p) <= |data|
    requires '\n' !in date
    ensures InOrder(Deleted(p), pos, End(p))
    ensures |Splice(data, pos, Deleted(p), End(p), date)| == End(p) - pos + Gain(p, |date|)
    ensures Count('\n', Splice(data, pos, Deleted(p), End(p), date)) == Count('\n', Slice(data, pos, End(p))) - NetLines(data, p)
    decreases p
  {
    hide Stub, InOrder, Splice, Count, Nested;
    if p.deleted {
      SpliceOne(data, pos, p, date);
      OneIs(data, pos, p, date);
    } else {
      GainIs(data, pos, p.parts, p.offset, End(p), date);
      OutermostInOrder(p.parts, p.offset, End(p));
      InOrderWiden(Outermost(p.parts), p.offset, End(p), pos);
    }
  }

  lemma OneIs(data: string, pos: int, p: Body, date: string)
    requires 0 <= pos <= p.hdrOffset <= p.offset && End(p) <= |data| && '\n' !in date
    ensures var out := data[pos..p.hdrOffset] + Stub(date, p.length) + data[p.hdrOffset..p.offset];
            && |out| == p.offset - pos + 88 + |date| + |Decimal(p.length)|
            && Count('\n', out) == Count('\n', Slice(data, pos, End(p))) - (Newlines(data, p) - 3)
  {
    hide Stub, Count;
    StubSize(date, p.length);
    StubLines(date, p.length);
    SliceSplit(data, pos, p.offset, End(p));
    SliceSplit(data, pos, p.hdrOffset, p.offset);
    var a, b := data[pos..p.hdrOffset], data[p.hdrOffset..p.offset];
    CountAppend('\n', a + Stub(date, p.length), b);
    CountAppend('\n', a, Stub(date, p.length));
  }

  // 89 is the length of the stub without the date, for a length of one digit.
  lemma StubSize(date: string, length: nat)
    ensures |Stub(date, length)| == 88 + |date| + |Decimal(length)|
  {
    hide Decimal;
  }

  lemma StubLines(date: string, length: nat)
    requires '\n' !in date
    ensures Count('\n', Stub(date, length)) == 3
  {
    hide StubDetail, StubType, Decimal;
    var first, mid := StubType(), StubDetail(date, length);
    StubPieces(date, length);
    CountNone('\n', first);
    CountNone('\n', mid);
    CountAppend('\n', first, "\n");
    CountAppend('\n', first + "\n", mid);
    CountAppend('\n', first + "\n" + mid, "\n");
    CountAppend('\n', first + "\n" + mid + "\n", "\n");
    assert Count('\n', "\n") == 1 + Count('\n', "");
  }

  lemma StubPieces(date: string, length: nat)
    requires '\n' !in date
    ensures '\n' !in StubType() && '\n' !in StubDetail(date, length)
  {
    hide Decimal;
    assert '\n' !in "message/external-body; ";
    assert '\n' !in "Content-Type: ";
    assert '\n' !in "access-type=" && '\n' !in "x-mutt-deleted;";
    assert '\n' !in "\texpiration=" && '\n' !in "; length=";
  }

  // --- mutt_copy_message_fp, for a message with attachments to delete ---

  // The fields of `struct Email` that the copy reads and, when asked to, brings up to date.
  class Message {
    var body: Body
    var lines: int
    var attachDel: bool

    constructor (body: Body, lines: int)
      ensures this.body == body && this.lines == lines && attachDel
    {
      this.body := body;
      this.lines := lines;
      attachDel := true;
    }
  }

  function Quoted(date: string): string { "\"" + date + "\"" }

  // The body as it is written.
  ghost function Kept(data: string, b: Body, date: string): string {
    Splice(data, b.offset, Outermost(b.parts), End(b), Quoted(date))
  }

  // The body of what follows p in b.
  ghost function Following(b: Body, p: Body, rest: seq<Body>): Body {
    Body(End(p), End(p), if End(p) <= End(b) then End(b) - End(p) else 0, false, rest)
  }

  // Part by part: before the first one all is copied; that is cut down to its headers behind a stub, or its own parts are
  // gone through; then comes what follows.
  lemma KeptFirst(data: string, b: Body, p: Body, rest: seq<Body>, date: string) returns (s: string)
    requires CopyableBody(data, b) && b.parts == [p] + rest
    ensures IsNumeral(s, p.length) && b.offset <= p.hdrOffset <= p.offset && End(p) <= End(b) <= |data| && CopyableBody(data, Following(b, p, rest))
    ensures p.deleted ==>
      Kept(data, b, date) == data[b.offset..p.hdrOffset]
        + (("Content-Type: " + "message/external-body; " + "access-type=" + "x-mutt-deleted;") + "\n" +
           ("\texpiration=" + ("\"" + date + "\"") + "; length=" + s) + "\n" + "\n")
        + data[p.hdrOffset..p.offset] + Kept(data, Following(b, p, rest), date)
    ensures !p.deleted ==> Kept(data, b, date) == data[b.offset..p.offset] + Kept(data, p, date) + Kept(data, Following(b, p, rest), date)
  {
    hide Stub, IsNumeral, Quoted, Splice;
    s := StubSays(Quoted(date), p.length);
    assert b.parts[0] == p && b.parts[1..] == rest;
    OutermostInOrder(rest, End(p), End(b));
    var q := Quoted(date);
    var tail := Outermost(rest);
    assert q == "\"" + date + "\"" by { QuotedIs(date); }
    if p.deleted {
      assert Outermost(b.parts) == [p] + tail;
      SpliceFirst(data, b.offset, p, tail, End(b), q);
    } else {
      OutermostInOrder(p.parts, p.offset, End(p));
      InOrderWiden(Outermost(p.parts), p.offset, End(p), b.offset);
      SpliceAppend(data, b.offset, Outermost(p.parts), tail, End(p), End(b), q);
      SpliceFrom(data, b.offset, Outermost(p.parts), p.offset, End(p), q);
    }
  }

  lemma QuotedIs(date: string)
    ensures Quoted(date) == "\"" + date + "\""
  {
  }

  lemma SpliceFirst(data: string, pos: int, d: Body, ds: seq<Body>, hi: int, date: string)
    ensures Splice(data, pos, [d] + ds, hi, date) ==
      Slice(data, pos, d.hdrOffset) + Stub(date, d.length) + Slice(data, d.hdrOffset, d.offset) + Splice(data, End(d), ds, hi, date)
  {
    assert ([d] + ds)[1..] == ds;
  }

  ghost predicate CopyableBody(data: string, b: Body) {
    !b.deleted && Nested(b.parts, b.offset, End(b)) && End(b) <= |data|
  }

  function LinesHeader(lines: int): string {
    if lines <= 0 then "" else "Lines: " + Decimal(lines) + "\n"
  }

  lemma LinesSays(lines: int) returns (s: string)
    ensures lines > 0 ==> IsNumeral(s, lines)
    ensures LinesHeader(lines) == if lines > 0 then "Lines: " + s + "\n" else ""
  {
    s := "";
    if lines > 0 {
      s := Decimal(lines);
      DecimalValue(lines);
    }
  }

  // The copied headers are given (None if mutt_copy_header fails).  `warned` is the run-time
  // check of the predicted length.
  method CopyMessage(msg: Message, fin: InFile, fout: OutFile, date: string, headers: Option<string>, update: bool)
      returns (rc: int, warned: bool, ghost lengthText: string, ghost linesText: string)
    requires CopyableBody(fin.data, msg.body) && '\n' !in date
    modifies msg, fin`pos, fout
    ensures rc == if Collides(fin.data, old(msg.body)) || headers.None? then -1 else 0
    ensures rc == 0 ==>
      var out := Kept(fin.data, old(msg.body), date);
      var lines := old(msg.lines) - NetLines(fin.data, old(msg.body));
      !warned && IsNumeral(lengthText, |out|) && (lines > 0 ==> IsNumeral(linesText, lines)) &&
      fout.data == old(fout.data) + headers.value + "Content-Length: " + lengthText + "\n" + (if lines > 0 then "Lines: " + linesText + "\n" else "") + "\n" + out &&
      (update ==>
        !msg.attachDel && msg.lines == (if lines <= 0 then 0 else lines) && msg.body.parts == [] && !msg.body.deleted &&
        Slice(fout.data, msg.body.offset, End(msg.body)) == out && End(msg.body) == |fout.data|)
    ensures rc == -1 || !update ==> msg.body == old(msg.body) && msg.lines == old(msg.lines) && msg.attachDel == old(msg.attachDel)
  {
    hide Splice, Outermost, Collides, NetLines, Gain, Decimal, Nested, Kept, LinesHeader, Quoted, Slice, IsNumeral;
    rc, warned, lengthText, linesText := -1, false, "", "";
    var body := msg.body;
    var quoted := Quoted(date);
    fin.pos := body.offset;
    var del, length := CountDeleteLines(fin, body, body.length, |quoted|);
    if del == -1 {
      return;
    }
    var lines := msg.lines - del;
    if headers.None? {
      return;
    }
    KeptIs(fin.data, body, date);
    fout.data := fout.data + headers.value;
    fout.data := fout.data + "Content-Length: " + Decimal(length) + "\n";
    lengthText := Decimal(length);
    DecimalValue(length);
    fout.data := fout.data + LinesHeader(lines);
    linesText := LinesSays(lines);
    if lines <= 0 {
      lines := 0;
    }
    fout.data := fout.data + "\n";
    var offset := |fout.data|;
    fin.pos := body.offset;
    CopyDeleteAttach(body, fin, fout, quoted);
    KeptSlice(fout.data, offset, length, fin.data, body, date);
    var fail := (|fout.data| - offset) - length;
    if fail != 0 {
      warned := true;
      length := length + fail;
    }
    if update {
      msg.attachDel := false;
      msg.lines := lines;
      msg.body := body.(offset := offset, length := length, parts := []);
    }
    rc := 0;
  }

  lemma KeptSlice(out: string, offset: nat, length: int, data: string, b: Body, date: string)
    requires offset <= |out| && length == |Kept(data, b, date)|
    requires out[offset..] == Splice(data, b.offset, Outermost(b.parts), End(b), Quoted(date))
    ensures Kept(data, b, date) == Splice(data, b.offset, Outermost(b.parts), End(b), Quoted(date))
    ensures |out| == offset + length && Slice(out, offset, offset + length) == Kept(data, b, date)
  {
  }

  // The predicted length is the length written, and the line count too.
  lemma KeptIs(data: string, b: Body, date: string)
    requires CopyableBody(data, b) && '\n' !in date
    ensures |Kept(data, b, date)| == b.length + Gain(b, |Quoted(date)|)
    ensures Count('\n', Kept(data, b, date)) == Newlines(data, b) - NetLines(data, b)
  {
    GainIs(data, b.offset, b.parts, b.offset, End(b), Quoted(date));
  }

  // If the header count was right before, it is right after.
  lemma LinesStayRight(data: string, b: Body, date: string, lines: int)
    requires CopyableBody(data, b) && '\n' !in date
    requires lines == Newlines(data, b)
    ensures lines - NetLines(data, b) == Count('\n', Kept(data, b, date))
  {
    KeptIs(data, b, date);
  }

  ghost predicate AnyDeleted(ps: seq<Body>) {
    exists p :: p in ps && (p.deleted || AnyDeleted(p.parts))
  }

  lemma {:induction false} OutermostNone(ps: seq<Body>)
    ensures AnyDeleted(ps) <==> Outermost(ps) != []
  {
    if ps != [] {
      OutermostNone(ps[0].parts);
      OutermostNone(ps[1..]);
      if AnyDeleted(ps) {
        var p :| p in ps && (p.deleted || AnyDeleted(p.parts));
        assert p == ps[0] || p in ps[1..];
      }
    }
  }

  // Deleting nothing copies the body byte by byte.
  lemma NothingDeleted(data: string, b: Body, date: string)
    requires CopyableBody(data, b) && !AnyDeleted(b.parts)
    ensures Kept(data, b, date) == Slice(data, b.offset, End(b)) && NetLines(data, b) == 0 && Gain(b, |Quoted(date)|) == 0
  {
    OutermostNone(b.parts);
    NoGain(data, b.parts, |Quoted(date)|);
  }

  lemma {:induction false} NoGain(data: string, ps: seq<Body>, datelen: nat)
    requires !AnyDeleted(ps)
    ensures NetAll(data, ps) == 0 && GainAll(ps, datelen) == 0
  {
    if ps != [] {
      var p := ps[0];
      assert p in ps && forall q :: q in ps[1..] ==> q in ps;
      NoGain(data, p.parts, datelen);
      NoGain(data, ps[1..], datelen);
    }
  }

  // --- when -1 is mistaken for a failure ---

  // A message whose only part is a deleted body of two lines cannot be saved without it.
  lemma TwoLinesLost(data: string, b: Body, p: Body)
    requires !b.deleted && b.parts == [p] && p.deleted && Newlines(data, p) == 2
    ensures Collides(data, b)
  {
    assert p in b.parts;
    assert Collides(data, p);
  }

  lemma TwoLinesExample()
    ensures exists data, b :: CopyableBody(data, b) && Collides(data, b)
  {
    var data := "\n\n";
    var p := Body(0, 0, 2, true, []);
    var b := Body(0, 0, 2, false, [p]);
    assert Nested([p], 0, 2) by { assert [p][1..] == []; }
    assert Slice(data, 0, 2) == data && data[1..] == "\n" && data[1..][1..] == "";
    assert CopyableBody(data, b);
    TwoLinesLost(data, b, p);
  }

  // Deleted parts of three lines or more never collide.
  lemma {:induction false} LongPartsNeverCollide(data: string, b: Body)
    requires forall d :: d in (if b.deleted then [b] else Outermost(b.parts)) ==> Newlines(data, d) >= 3
    ensures NetLines(data, b) >= 0 && !Collides(data, b)
    decreases b, 0
  {
    if !b.deleted {
      LongAll(data, b.parts);
    }
  }

  lemma {:induction false} LongAll(data: string, ps: seq<Body>)
    requires forall d :: d in Outermost(ps) ==> Newlines(data, d) >= 3
    ensures NetAll(data, ps) >= 0 && forall p :: p in ps ==> !Collides(data, p)
    decreases ps, 1
  {
    if ps != [] {
      LongPartsNeverCollide(data, ps[0]);
      LongAll(data, ps[1..]);
      forall p | p in ps ensures !Collides(data, p) {
        assert p == ps[0] || p in ps[1..];
      }
    }
  }
}
