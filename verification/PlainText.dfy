// decode_xbit (handler.c): text that is not encoded.
module PlainText {
  import opened Sequences
  import opened HandlerState
  import opened Wrappers

  lemma CrLfStep(input: seq<byte>, pos: nat, stop: nat, front: seq<byte>)
    requires pos < stop <= |input|
    ensures var c := input[pos];
            front + CrLf(input[pos..stop])
            == if c == CR && pos + 1 < stop && input[pos + 1] == LF then (front + [LF]) + CrLf(input[pos + 2..stop])
               else (front + [c]) + CrLf(input[pos + 1..stop])
  {
    var s := input[pos..stop];
    assert s[1..] == input[pos + 1..stop];
    if pos + 1 < stop {
      assert s[1..][1..] == input[pos + 2..stop] && s[1] == input[pos + 1] == s[1..][0];
    }
  }

  lemma CrLfNone(input: seq<byte>, stop: nat, front: seq<byte>)
    requires stop <= |input|
    ensures front + CrLf(input[stop..stop]) == front
  {
  }

  // One character; the LF of a CRLF is read with the CR, and stands for both.
  method ReadChar(st: State, len0: nat, ghost front: seq<byte>) returns (c: byte, len: nat)
    requires st.Valid() && len0 > 0 && st.pos < |st.input|
    modifies st`pos
    ensures st.Valid() && old(st.pos) < st.pos && Stop(st, len) == old(Stop(st, len0))
    ensures front + CrLf(st.input[old(st.pos)..Stop(st, len)]) == (front + [c]) + CrLf(st.input[st.pos..Stop(st, len)])
  {
    hide CrLf;
    CrLfStep(st.input, st.pos, Stop(st, len0), front);
    c := st.input[st.pos];
    st.pos, len := st.pos + 1, len0 - 1;
    if c == CR && len != 0 && st.pos < |st.input| {
      var ch := st.input[st.pos];
      if ch == LF {
        c, st.pos, len := ch, st.pos + 1, len - 1;
      }
    }
  }

  // mutt_file_copy_bytes: as many bytes as there are, if there are fewer.
  method CopyBytes(st: State, size: nat)
    requires st.Valid()
    modifies st`output, st`pos
    ensures st.Valid() && st.pos == old(Stop(st, size))
    ensures st.output == old(st.output) + st.input[old(st.pos)..old(Stop(st, size))]
  {
    var stop := Stop(st, size);
    st.output := st.output + st.input[st.pos..stop];
    st.pos := stop;
  }

  // decode_xbit.  Only the line ends of text change, wherever the buffer is full.
  method DecodeXbit(st: State, len: nat, istext: bool)
    requires st.Valid()
    modifies st
    ensures st.Valid()
    ensures var part := st.input[old(st.pos)..old(Stop(st, len))];
            st.output == old(st.output) + if istext then Rendered(st.prefix, true, CrLf(part)) else part
    ensures istext ==> !st.pending
  {
    hide Rendered, CrLf;
    if !istext {
      CopyBytes(st, len);
      return;
    }
    st.pending := true;
    DecodeText(st, len);
    st.pending := false;
  }

  // The character after the last one is read, too, and ignored.
  method DecodeText(st: State, len0: nat)
    requires st.Valid() && st.pending
    modifies st
    ensures st.Valid()
    ensures st.output == old(st.output) + Rendered(st.prefix, true, CrLf(st.input[old(st.pos)..old(Stop(st, len0))]))
  {
    hide Rendered, PendingAfter, CrLf, Flushed;
    var len, bufi := len0, new byte[BUFFER_SIZE];
    var l: nat := 0;
    ghost var out0, stop, last := st.output, Stop(st, len), false;
    ghost var all: seq<byte>, written: seq<byte> := CrLf(st.input[st.pos..stop]), [];
    NothingYet(st, true);
    while st.pos < |st.input|
      invariant st.Valid() && Stop(st, len) == stop && l < bufi.Length && !last
      invariant Flushed(st, out0, true, written) && all == (written + bufi[..l]) + CrLf(st.input[st.pos..stop])
      decreases |st.input| - st.pos
    {
      if len == 0 {
        CrLfNone(st.input, stop, written + bufi[..l]);
        st.pos, last := st.pos + 1, true;
        break;
      }
      var c;
      c, len := ReadChar(st, len, written + bufi[..l]);
      ghost var waiting := bufi[..l];
      bufi[l] := c;
      l := l + 1;
      assert bufi[..l] == waiting + [c];
      Assoc(written, waiting, [c]);
      if l == bufi.Length {
        waiting := bufi[..l];
        l := Flush(st, bufi, l, out0, true, written);
        written := written + waiting;
      }
    }
    if !last {
      CrLfNone(st.input, stop, written + bufi[..l]);
    }
    l := Flush(st, bufi, l, out0, true, written);
    Output(st, out0, true, all);
  }
}
