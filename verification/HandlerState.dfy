// mutt/state.c: the input and output of the MIME decoders, and the prefix put before every line
// (the quote mark, when replying).
module HandlerState {
  import opened Sequences
  import opened Wrappers

  type byte = b: int | 0 <= b < 256

  const LF: byte := 10
  const CR: byte := 13
  const EQUALS: byte := 61

  // BUFI_SIZE
  const BUFFER_SIZE: nat := 1000

  class State {
    const input: seq<byte>
    var pos: nat
    const prefix: Option<seq<byte>>
    var pending: bool
    var output: seq<byte>

    constructor (input: seq<byte>, prefix: Option<seq<byte>>)
      ensures this.input == input && this.prefix == prefix && pos == 0 && !pending && output == []
    {
      this.input, this.prefix := input, prefix;
      pos, pending, output := 0, false, [];
    }

    ghost predicate Valid()
      reads this
    {
      pos <= |input|
    }

    // state_prefix_putc
    method PrefixPutc(c: byte)
      modifies this`pending, this`output
      ensures prefix.Some? ==> output == old(output) + (if old(pending) then prefix.value else []) + [c]
      ensures prefix.None? ==> output == old(output) + [c]
      ensures pending == (c == LF)
    {
      if pending {
        pending := false;
        if prefix.Some? {
          output := output + prefix.value;
        }
      }
      output := output + [c];
      if c == LF {
        pending := true;
      }
    }

    // state_prefix_put
    method PrefixPut(bs: seq<byte>)
      modifies this`pending, this`output
      ensures output == old(output) + Rendered(prefix, old(pending), bs)
      ensures pending == PendingAfter(prefix, old(pending), bs)
    {
      hide Rendered, PendingAfter;
      RenderedNone(prefix, pending, bs);
      if prefix.Some? {
        for i := 0 to |bs|
          invariant output == old(output) + Rendered(prefix, old(pending), bs[..i])
          invariant pending == PendingAfter(prefix, old(pending), bs[..i])
        {
          RenderedSnoc(prefix, old(pending), bs, i);
          PrefixPutc(bs[i]);
        }
        assert bs[..|bs|] == bs;
      } else {
        output := output + bs;
      }
    }
  }

  // What is written for bs: the prefix at the start of every line (of the first one only if it is due).
  ghost function Rendered(prefix: Option<seq<byte>>, pending: bool, bs: seq<byte>): seq<byte>
    decreases bs
  {
    if prefix.None? then bs
    else if bs == [] then []
    else (if pending then prefix.value else []) + [bs[0]] + Rendered(prefix, bs[0] == LF, bs[1..])
  }

  ghost function PendingAfter(prefix: Option<seq<byte>>, pending: bool, bs: seq<byte>): bool {
    if prefix.None? || bs == [] then pending else bs[|bs| - 1] == LF
  }

  lemma RenderedNone(prefix: Option<seq<byte>>, pending: bool, bs: seq<byte>)
    ensures Rendered(prefix, pending, bs[..0]) == [] && PendingAfter(prefix, pending, bs[..0]) == pending
    ensures prefix.None? ==> Rendered(prefix, pending, bs) == bs && PendingAfter(prefix, pending, bs) == pending
  {
  }

  lemma RenderedSnoc(prefix: Option<seq<byte>>, pending: bool, bs: seq<byte>, i: nat)
    requires prefix.Some? && i < |bs|
    ensures PendingAfter(prefix, pending, bs[..i + 1]) == (bs[i] == LF)
    ensures Rendered(prefix, pending, bs[..i + 1])
            == Rendered(prefix, pending, bs[..i]) + (if PendingAfter(prefix, pending, bs[..i]) then prefix.value else []) + [bs[i]]
  {
    hide Rendered;
    RenderedAppend(prefix, pending, bs[..i], [bs[i]]);
    assert bs[..i + 1] == bs[..i] + [bs[i]];
    RenderedByte(prefix, PendingAfter(prefix, pending, bs[..i]), bs[i]);
  }

  lemma RenderedByte(prefix: Option<seq<byte>>, pending: bool, b: byte)
    requires prefix.Some?
    ensures Rendered(prefix, pending, [b]) == (if pending then prefix.value else []) + [b]
  {
    assert [b][1..] == [] && Rendered(prefix, b == LF, []) == [];
  }

  lemma {:induction false} RenderedAppend(prefix: Option<seq<byte>>, pending: bool, a: seq<byte>, b: seq<byte>)
    ensures Rendered(prefix, pending, a + b)
            == Rendered(prefix, pending, a) + Rendered(prefix, PendingAfter(prefix, pending, a), b)
    ensures PendingAfter(prefix, pending, a + b) == PendingAfter(prefix, PendingAfter(prefix, pending, a), b)
    decreases a
  {
    if a == [] {
      assert a + b == b;
    } else if prefix.Some? {
      assert (a + b)[1..] == a[1..] + b;
      RenderedAppend(prefix, a[0] == LF, a[1..], b);
      var first := (if pending then prefix.value else []) + [a[0]];
      var q := PendingAfter(prefix, pending, a);
      assert q == PendingAfter(prefix, a[0] == LF, a[1..]);
      Assoc(first, Rendered(prefix, a[0] == LF, a[1..]), Rendered(prefix, q, b));
    }
  }

  // A line gets the prefix, if it is due, or the line is not the first; so does a last line that is not empty.
  lemma {:induction false} LineRendered(prefix: seq<byte>, pending: bool, line: seq<byte>, rest: seq<byte>)
    requires LF !in line
    ensures Rendered(Some(prefix), pending, line + [LF] + rest) == (if pending then prefix else []) + line + [LF] + Rendered(Some(prefix), true, rest)
    ensures Rendered(Some(prefix), pending, line) == if line == [] then [] else (if pending then prefix else []) + line
  {
    hide Rendered;
    var s := line + [LF] + rest;
    RenderedHead(prefix, pending, s);
    RenderedHead(prefix, pending, line);
    if line == [] {
      assert s[1..] == rest;
    } else {
      var first := (if pending then prefix else []) + [line[0]];
      assert s[1..] == line[1..] + [LF] + rest && line[0] != LF;
      LineRendered(prefix, false, line[1..], rest);
      LineParts(prefix, pending, line, Rendered(Some(prefix), true, rest));
    }
  }

  lemma RenderedHead(prefix: seq<byte>, pending: bool, s: seq<byte>)
    ensures Rendered(Some(prefix), pending, s) ==
      if s == [] then [] else (if pending then prefix else []) + [s[0]] + Rendered(Some(prefix), s[0] == LF, s[1..])
  {
  }

  lemma LineParts(prefix: seq<byte>, pending: bool, line: seq<byte>, rest: seq<byte>)
    requires line != []
    ensures var p := if pending then prefix else [];
      p + [line[0]] + ([] + line[1..] + [LF] + rest) == p + line + [LF] + rest && p + [line[0]] + line[1..] == p + line && [] + line[1..] == line[1..]
  {
    assert [line[0]] + line[1..] == line;
  }

  // The end of the input, or of the next len bytes.
  function Stop(st: State, len: nat): nat
    reads st
  {
    if st.pos + len <= |st.input| then st.pos + len else |st.input|
  }

  lemma StopIs(st: State, len: nat)
    requires st.Valid()
    ensures st.pos <= Stop(st, len) <= |st.input| && Stop(st, len) - st.pos <= len
    ensures Stop(st, len) < |st.input| ==> Stop(st, len) - st.pos == len
  {
  }

  // convert_to_state without a character set converter: write the buffer and empty it.
  method ConvertToState(st: State, buf: array<byte>, l: nat) returns (left: nat)
    requires l <= buf.Length
    modifies st`pending, st`output
    ensures left == 0
    ensures st.output == old(st.output) + Rendered(st.prefix, old(st.pending), buf[..l])
    ensures st.pending == PendingAfter(st.prefix, old(st.pending), buf[..l])
  {
    st.PrefixPut(buf[..l]);
    left := 0;
  }

  // What has been written so far.
  ghost predicate Flushed(st: State, out0: seq<byte>, pend0: bool, written: seq<byte>)
    reads st`output, st`pending
  {
    st.output == out0 + Rendered(st.prefix, pend0, written) && st.pending == PendingAfter(st.prefix, pend0, written)
  }

  method Flush(st: State, bufi: array<byte>, l0: nat, ghost out0: seq<byte>, ghost pend0: bool, ghost written: seq<byte>)
      returns (l: nat)
    requires l0 <= bufi.Length && Flushed(st, out0, pend0, written)
    modifies st`pending, st`output
    ensures l == 0 && Flushed(st, out0, pend0, written + bufi[..l0])
  {
    hide Rendered, PendingAfter;
    RenderedAppend(st.prefix, pend0, written, bufi[..l0]);
    l := ConvertToState(st, bufi, l0);
    Assoc(out0, Rendered(st.prefix, pend0, written), Rendered(st.prefix, PendingAfter(st.prefix, pend0, written), bufi[..l0]));
  }

  lemma NothingYet(st: State, pend0: bool)
    requires st.pending == pend0
    ensures Flushed(st, st.output, pend0, [])
  {
  }

  lemma Output(st: State, out0: seq<byte>, pend0: bool, written: seq<byte>)
    requires Flushed(st, out0, pend0, written)
    ensures st.output == out0 + Rendered(st.prefix, pend0, written)
  {
  }

  // --- line ends in text ---

  // Every CR directly before an LF is dropped; other CRs stay.
  ghost function CrLf(bs: seq<byte>): seq<byte> {
    if bs == [] then []
    else if bs[0] == CR && |bs| > 1 && bs[1] == LF then CrLf(bs[1..])
    else [bs[0]] + CrLf(bs[1..])
  }

  ghost predicate EndsInCr(bs: seq<byte>) {
    bs != [] && bs[|bs| - 1] == CR
  }

  // What can be written when bs has been read: a final CR has to wait for the next byte.
  ghost function Ready(bs: seq<byte>): seq<byte> {
    if EndsInCr(bs) then CrLf(bs[..|bs| - 1]) else CrLf(bs)
  }

  lemma {:induction false} CrLfSnoc(bs: seq<byte>, b: byte)
    ensures CrLf(bs + [b]) == if EndsInCr(bs) && b == LF then CrLf(bs[..|bs| - 1]) + [LF] else CrLf(bs) + [b]
  {
    if |bs| == 0 {
      assert bs + [b] == [b];
    } else if |bs| == 1 {
      assert (bs + [b])[1..] == [b] && [b][1..] == [] && bs[1..] == [] && bs[..0] == [];
      assert CrLf([b]) == [b] && CrLf(bs) == bs;
    } else {
      assert (bs + [b])[1..] == bs[1..] + [b];
      assert EndsInCr(bs) ==> EndsInCr(bs[1..]) && bs[1..][..|bs[1..]| - 1] == bs[..|bs| - 1][1..];
      CrLfSnoc(bs[1..], b);
    }
  }

  // One more byte: a waiting CR is written unless b is LF, and then b, unless it is itself a CR.
  lemma ReadySnoc(bs: seq<byte>, b: byte)
    ensures EndsInCr(bs + [b]) <==> b == CR
    ensures Ready(bs + [b]) == Ready(bs) + (if EndsInCr(bs) && b != LF then [CR] else []) + (if b == CR then [] else [b])
  {
    assert (bs + [b])[..|bs|] == bs;
    CrLfSnoc(bs, b);
    if EndsInCr(bs) {
      var front := bs[..|bs| - 1];
      assert bs == front + [CR];
      CrLfSnoc(front, CR);
    }
  }

  lemma ReadyAll(bs: seq<byte>)
    ensures CrLf(bs) == Ready(bs) + (if EndsInCr(bs) then [CR] else [])
  {
    if EndsInCr(bs) {
      assert bs == bs[..|bs| - 1] + [CR];
      CrLfSnoc(bs[..|bs| - 1], CR);
    }
  }

  // A CRLF anywhere becomes an LF.
  lemma {:induction false} CrLfDropped(a: seq<byte>, b: seq<byte>)
    ensures CrLf(a + [13, 10] + b) == CrLf(a) + [10] + CrLf(b)
  {
    var s := a + [13, 10] + b;
    if a == [] {
      assert s == [13, 10] + b && s[1..] == [10] + b && s[1..][1..] == b;
    } else {
      assert s[1..] == a[1..] + [13, 10] + b;
      assert |a| > 1 ==> s[1] == a[1];
      CrLfDropped(a[1..], b);
    }
  }

  lemma {:induction false} CrLfSame(bs: seq<byte>)
    requires forall i :: 0 <= i < |bs| - 1 ==> bs[i] == CR ==> bs[i + 1] != LF
    ensures CrLf(bs) == bs
  {
    if bs != [] {
      forall i | 0 <= i < |bs[1..]| - 1 && bs[1..][i] == CR ensures bs[1..][i + 1] != LF { assert bs[i + 1] == CR; }
      CrLfSame(bs[1..]);
    }
  }
}
