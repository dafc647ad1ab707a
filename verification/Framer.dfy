/** The byte-stream framer: chunked bytes in, whole checksum-verified frames out. */
module Framer {
  import opened Bytes
  import opened Protocol
  import Machines

  datatype FrameError = BadLengthField | BadChecksum

  /** One callback of the framer: the frame sink or the error handler. */
  datatype Output = Frame(bytes: Message) | Rejected(error: FrameError)

  /** The accumulated bytes, and the junk counter modulo 2^32. */
  datatype Buffer = Buffer(buf: seq<byte>, discarded: uint32)

  /** Between calls fewer than 13 bytes are held, and they begin with a start flag. */
  type State = b: Buffer | |b.buf| < MSG_LEN && (b.buf != [] ==> b.buf[0] == START_FLAG)
    witness Buffer([], 0)

  const EMPTY: State := Buffer([], 0)

  /** First index at or after `i` holding a start flag, or the length. */
  function NextStart(s: seq<byte>, i: nat): (n: nat)
    requires i <= |s|
    ensures i <= n <= |s|
    ensures n < |s| ==> s[n] == START_FLAG
    decreases |s| - i
  {
    if i < |s| && s[i] != START_FLAG then NextStart(s, i + 1) else i
  }

  lemma {:induction false} FirstStart(s: seq<byte>, i: nat, n: nat)
    requires i <= n <= |s| && (n < |s| ==> s[n] == START_FLAG)
    requires forall k :: i <= k < n ==> s[k] != START_FLAG
    ensures NextStart(s, i) == n
    decreases n - i
  {
    if i < n {
      FirstStart(s, i + 1, n);
    }
  }

  lemma {:induction false} NoStartBefore(s: seq<byte>, i: nat)
    requires i <= |s|
    ensures forall k :: i <= k < NextStart(s, i) ==> s[k] != START_FLAG
    decreases |s| - i
  {
    if i < |s| && s[i] != START_FLAG {
      NoStartBefore(s, i + 1);
    }
  }

  function Resync(b: Buffer): State
    requires 0 < |b.buf| <= MSG_LEN
  {
    var next := NextStart(b.buf, 1);
    Buffer(b.buf[next..], Wrap(b.discarded + next))
  }

  /** What becomes of a candidate that has just grown by one byte. */
  function Settle(grown: Buffer): (State, seq<Output>)
    requires 0 < |grown.buf| <= MSG_LEN && grown.buf[0] == START_FLAG
  {
    if |grown.buf| == 4 && grown.buf[3] != LENGTH_FLAG then
      (Resync(grown), [Rejected(BadLengthField)])
    else if |grown.buf| < MSG_LEN then
      (grown, [])
    else if grown.buf[12] == Checksum(grown.buf) then
      (Buffer([], grown.discarded), [Frame(grown.buf)])
    else
      (Resync(grown), [Rejected(BadChecksum)])
  }

  /** The effect of one received byte. */
  function Step(st: State, b: byte): (State, seq<Output>) {
    if st.buf == [] && b != START_FLAG then
      (st.(discarded := Wrap(st.discarded + 1)), [])
    else
      Settle(st.(buf := st.buf + [b]))
  }

  /** The state after feeding a byte string, in one chunk. */
  function After(st: State, data: seq<byte>): State {
    Machines.After(Step, st, data)
  }

  /** The callbacks made while feeding it. */
  function Emitted(st: State, data: seq<byte>): seq<Output> {
    Machines.Emitted(Step, st, data)
  }

  /** Chunking is invisible: feeding a ++ b is feeding a, then b. */
  lemma ChunkIndependence(st: State, a: seq<byte>, b: seq<byte>)
    ensures After(st, a + b) == After(After(st, a), b)
    ensures Emitted(st, a + b) == Emitted(st, a) + Emitted(After(st, a), b)
  {
    Machines.Append(Step, st, a, b);
  }

  /** The framer object, with its buffer compacted in place. */
  class FrameParser {
    const buf: array<byte>
    var len: nat
    var discarded: uint32

    ghost predicate Valid()
      reads this, buf
    {
      buf.Length == MSG_LEN && len < MSG_LEN && (len > 0 ==> buf[0] == START_FLAG)
    }

    ghost function Model(): State
      reads this, buf
      requires Valid()
    {
      Buffer(buf[..len], discarded)
    }

    constructor ()
      ensures Valid() && fresh(buf) && Model() == EMPTY
    {
      buf := new byte[13](i => 0);
      len := 0;
      discarded := 0;
    }

    method Reset()
      requires Valid()
      modifies this
      ensures Valid() && Model() == EMPTY
    {
      len := 0;
      discarded := 0;
    }

    /** Slides buf[next..len] down to the front. */
    method Compact(next: nat)
      requires next <= len <= buf.Length
      modifies this`len, buf
      ensures len == old(len) - next && buf[..len] == old(buf[next..len])
    {
      var remaining := len - next;
      for i := 0 to remaining
        invariant forall k :: 0 <= k < i ==> buf[k] == old(buf[next + k])
        invariant forall k :: i <= k < buf.Length ==> buf[k] == old(buf[k])
        modifies buf
      {
        buf[i] := buf[next + i];
      }
      len := remaining;
    }

    /** Drops buf[0] and compacts forward to the next plausible start. */
    method ResyncBuffer()
      requires buf.Length == MSG_LEN && 0 < len <= MSG_LEN
      modifies this, buf
      ensures Valid() && Model() == Resync(Buffer(old(buf[..len]), old(discarded)))
    {
      ghost var before := buf[..len];
      discarded := Wrap(discarded + 1);
      var next := 1;
      while next < len && buf[next] != START_FLAG
        invariant 1 <= next <= len && discarded == Wrap(old(discarded) + next)
        invariant forall k :: 1 <= k < next ==> before[k] != START_FLAG
        modifies this`discarded
      {
        WrapAdd(old(discarded) + next, 1);
        next := next + 1;
        discarded := Wrap(discarded + 1);
      }
      assert before[next..] == buf[next..len];
      FirstStart(before, 1, next);
      Compact(next);
      assert len > 0 ==> buf[0] == buf[..len][0];
    }

    /** The body of the receive loop, for one byte. */
    method PushByte(b: byte) returns (outs: seq<Output>)
      requires Valid()
      modifies this, buf
      ensures Valid() && (Model(), outs) == Step(old(Model()), b)
    {
      hide Sum, SumOfTwelve;
      if len == 0 && b != START_FLAG {
        discarded := Wrap(discarded + 1);
        return [];
      }
      ghost var grown := buf[..len] + [b];
      buf[len] := b;
      len := len + 1;
      assert buf[..len] == grown;
      if len == 4 && buf[3] != LENGTH_FLAG {
        ResyncBuffer();
        return [Rejected(BadLengthField)];
      }
      if len < MSG_LEN {
        return [];
      }
      assert buf[..] == grown;
      var sum := CalcChksum(buf);
      if buf[12] == sum {
        outs := [Frame(buf[..])];
        len := 0;
      } else {
        ResyncBuffer();
        outs := [Rejected(BadChecksum)];
      }
    }

    /** Feeds the first `n` bytes of `data`; a null buffer is ignored. */
    method Feed(data: array?<byte>, n: nat) returns (outs: seq<Output>)
      requires Valid()
      requires data != null ==> n <= data.Length && data != buf
      modifies this, buf
      ensures Valid()
      ensures var bytes := if data == null then [] else old(data[..n]);
              Model() == After(old(Model()), bytes) && outs == Emitted(old(Model()), bytes)
    {
      outs := [];
      if data == null {
        return;
      }
      for i := 0 to n
        invariant Valid() && data[..n] == old(data[..n])
        invariant Model() == After(old(Model()), data[..i]) && outs == Emitted(old(Model()), data[..i])
      {
        Machines.Snoc(Step, old(Model()), data[..i], data[i]);
        assert data[..i] + [data[i]] == data[..i + 1];
        var out := PushByte(data[i]);
        outs := outs + out;
      }
    }
  }
}
