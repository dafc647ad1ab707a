/**
 The declarative meaning of the framer: a scan over the positions of a whole
 stream, with no buffer and no compaction. `h` counts the bytes that had already
 arrived when the scan reached position `i`; only that decides whether a
 candidate is ever checked for its length field.
 */
module Scan {
  import opened Bytes
  import opened Protocol
  import opened Framer

  datatype Item = Emit(at: nat) | Reject(at: nat, error: FrameError)

  /** What was decided, and where the undecided tail starts. */
  datatype Parse = Parse(items: seq<Item>, rest: nat)

  predicate SealedAt(s: seq<byte>, p: nat) {
    p + 13 <= |s| && Sealed(s[p..p + 13])
  }

  predicate FrameAt(s: seq<byte>, p: nat) {
    p + 13 <= |s| && WellFormed(s[p..p + 13])
  }

  function ScanFrom(s: seq<byte>, i: nat, h: nat): (r: Parse)
    requires i <= |s|
    ensures i <= r.rest <= |s| < r.rest + 13
    ensures r.rest < |s| ==> s[r.rest] == START_FLAG
    decreases |s| - i
  {
    if i == |s| then Parse([], i)
    else if s[i] != START_FLAG then ScanFrom(s, i + 1, h)
    else if h < i + 4 <= |s| && s[i + 3] != LENGTH_FLAG then
      Then(Reject(i, BadLengthField), ScanFrom(s, i + 1, i + 4))
    else if |s| < i + 13 then Parse([], i)
    else if SealedAt(s, i) then Then(Emit(i), ScanFrom(s, i + 13, i + 13))
    else Then(Reject(i, BadChecksum), ScanFrom(s, i + 1, i + 13))
  }

  function Then(x: Item, p: Parse): Parse {
    Parse([x] + p.items, p.rest)
  }

  /** The callback an item stands for. */
  function Callback(s: seq<byte>, x: Item): Output
    requires x.Emit? ==> x.at + 13 <= |s|
  {
    if x.Emit? then Frame(s[x.at..x.at + 13]) else Rejected(x.error)
  }

  // ---------------------------------------------------------------------------
  // Where the items lie
  // ---------------------------------------------------------------------------

  function Width(x: Item): nat {
    if x.Emit? then 13 else 1
  }

  /** Items lie in [lo, hi), in stream order, each at a start flag; an emitted window is sealed and owned whole. */
  ghost predicate Ordered(s: seq<byte>, items: seq<Item>, lo: nat, hi: nat) {
    && hi <= |s|
    && (forall k :: 0 <= k < |items| ==>
         && lo <= items[k].at && items[k].at + Width(items[k]) <= hi
         && s[items[k].at] == START_FLAG
         && (items[k].Emit? ==> SealedAt(s, items[k].at)))
    && (forall j, k :: 0 <= j < k < |items| ==> items[j].at + Width(items[j]) <= items[k].at)
  }

  lemma OrderedCons(s: seq<byte>, x: Item, items: seq<Item>, hi: nat)
    requires Ordered(s, items, x.at + Width(x), hi) && x.at + Width(x) <= hi
    requires s[x.at] == START_FLAG && (x.Emit? ==> SealedAt(s, x.at))
    ensures Ordered(s, [x] + items, x.at, hi)
  {
  }

  lemma {:induction false} ItemsInOrder(s: seq<byte>, i: nat, h: nat)
    requires i <= |s|
    ensures Ordered(s, ScanFrom(s, i, h).items, i, ScanFrom(s, i, h).rest)
    decreases |s| - i
  {
    if i == |s| {
    } else if s[i] != START_FLAG {
      ItemsInOrder(s, i + 1, h);
    } else if h < i + 4 <= |s| && s[i + 3] != LENGTH_FLAG {
      var next := ScanFrom(s, i + 1, i + 4);
      ItemsInOrder(s, i + 1, i + 4);
      OrderedCons(s, Reject(i, BadLengthField), next.items, next.rest);
    } else if |s| < i + 13 {
    } else if SealedAt(s, i) {
      var next := ScanFrom(s, i + 13, i + 13);
      ItemsInOrder(s, i + 13, i + 13);
      OrderedCons(s, Emit(i), next.items, next.rest);
    } else {
      var next := ScanFrom(s, i + 1, i + 13);
      ItemsInOrder(s, i + 1, i + 13);
      OrderedCons(s, Reject(i, BadChecksum), next.items, next.rest);
    }
  }

  /** Some emitted window started strictly before p and reaches over it. */
  ghost predicate Overlapped(items: seq<Item>, p: nat) {
    exists k :: 0 <= k < |items| && items[k].Emit? && items[k].at < p < items[k].at + 13
  }

  /** No complete frame is skipped unless an emitted one, begun strictly earlier, covers its start. */
  lemma {:induction false} NoFrameSkipped(s: seq<byte>, i: nat, h: nat, p: nat)
    requires i <= p && FrameAt(s, p)
    ensures var items := ScanFrom(s, i, h).items;
            Emit(p) in items || Overlapped(items, p)
    decreases |s| - i
  {
    hide Checksum;
    assert s[p..p + 13][0] == s[p] && s[p..p + 13][3] == s[p + 3];
    var items := ScanFrom(s, i, h).items;
    if s[i] != START_FLAG {
      NoFrameSkipped(s, i + 1, h, p);
    } else if h < i + 4 && s[i + 3] != LENGTH_FLAG {
      NoFrameSkipped(s, i + 1, i + 4, p);
      LaterItems(Reject(i, BadLengthField), ScanFrom(s, i + 1, i + 4).items, p);
    } else if SealedAt(s, i) {
      assert items[0] == Emit(i);
      if i + 13 <= p {
        NoFrameSkipped(s, i + 13, i + 13, p);
        LaterItems(Emit(i), ScanFrom(s, i + 13, i + 13).items, p);
      }
    } else {
      NoFrameSkipped(s, i + 1, i + 13, p);
      LaterItems(Reject(i, BadChecksum), ScanFrom(s, i + 1, i + 13).items, p);
    }
  }

  lemma LaterItems(x: Item, items: seq<Item>, p: nat)
    ensures Emit(p) in items ==> Emit(p) in [x] + items
    ensures Overlapped(items, p) ==> Overlapped([x] + items, p)
  {
    if Overlapped(items, p) {
      var k :| 0 <= k < |items| && items[k].Emit? && items[k].at < p < items[k].at + 13;
      assert ([x] + items)[k + 1] == items[k];
    }
  }

  // ---------------------------------------------------------------------------
  // The incremental framer computes the scan
  // ---------------------------------------------------------------------------

  ghost predicate Inside(items: seq<Item>, n: nat) {
    forall k :: 0 <= k < |items| && items[k].Emit? ==> items[k].at + 13 <= n
  }

  ghost function Callbacks(s: seq<byte>, items: seq<Item>): (o: seq<Output>)
    requires Inside(items, |s|)
  {
    seq(|items|, k requires 0 <= k < |items| => Callback(s, items[k]))
  }

  lemma ThenResume(x: Item, r: Parse, t: Parse)
    ensures Then(x, Parse(r.items + t.items, t.rest)) == Parse(Then(x, r).items + t.items, t.rest)
  {
    assert [x] + (r.items + t.items) == ([x] + r.items) + t.items;
  }

  /** Scanning one more byte only resumes at the undecided tail. */
  lemma {:induction false} ScanResume(s: seq<byte>, b: byte, i: nat, h: nat)
    requires i <= |s| && h <= |s|
    ensures var r := ScanFrom(s, i, h);
            var t := ScanFrom(s + [b], r.rest, |s|);
            ScanFrom(s + [b], i, h) == Parse(r.items + t.items, t.rest)
    decreases |s| - i, 0
  {
    var s' := s + [b];
    assert i + 13 <= |s| ==> s'[i..i + 13] == s[i..i + 13];
    hide Sealed;
    if i == |s| {
    } else if s[i] != START_FLAG {
      ScanResume(s, b, i + 1, h);
    } else if h < i + 4 <= |s| && s[i + 3] != LENGTH_FLAG {
      ItemResumes(s, b, Reject(i, BadLengthField), i + 1, i + 4);
    } else if |s| < i + 13 {
    } else if SealedAt(s, i) {
      ItemResumes(s, b, Emit(i), i + 13, i + 13);
    } else {
      ItemResumes(s, b, Reject(i, BadChecksum), i + 1, i + 13);
    }
  }

  /** The same behind an item already decided. */
  lemma {:induction false} ItemResumes(s: seq<byte>, b: byte, x: Item, i: nat, h: nat)
    requires i <= |s| && h <= |s|
    ensures var r := Then(x, ScanFrom(s, i, h));
            var t := ScanFrom(s + [b], r.rest, |s|);
            Then(x, ScanFrom(s + [b], i, h)) == Parse(r.items + t.items, t.rest)
    decreases |s| - i, 1
  {
    var r := ScanFrom(s, i, h);
    ScanResume(s, b, i, h);
    ThenResume(x, r, ScanFrom(s + [b], r.rest, |s|));
    hide ScanFrom;
  }

  /** With everything read and fewer than 13 bytes left, the scan just looks for a start flag. */
  lemma {:induction false} ScanTail(s: seq<byte>, i: nat)
    requires i <= |s| < i + 13
    ensures ScanFrom(s, i, |s|) == Parse([], NextStart(s, i))
    decreases |s| - i
  {
    if i < |s| && s[i] != START_FLAG {
      ScanTail(s, i + 1);
    }
  }

  /** After a rejection both drop one byte and slide to the next start flag. */
  lemma RejectSlides(s: seq<byte>, i: nat, d: uint32)
    requires i < |s| <= i + 13
    ensures var t := ScanFrom(s, i + 1, |s|);
            t.items == [] && Resync(Buffer(s[i..], d)).buf == s[t.rest..]
  {
    var n := NextStart(s, i + 1);
    ScanTail(s, i + 1);
    NoStartBefore(s, i + 1);
    FirstStart(s[i..], 1, n - i);
  }

  /** What the framer does with a grown candidate is what the scan decides at its position. */
  lemma SettleIsScan(s: seq<byte>, rest: nat, h: nat, d: uint32)
    requires rest < |s| <= rest + 13 && h + 1 == |s| && s[rest] == START_FLAG
    ensures var t := ScanFrom(s, rest, h);
            var (st', outs) := Settle(Buffer(s[rest..], d));
            && Inside(t.items, |s|)
            && st'.buf == s[t.rest..]
            && outs == Callbacks(s, t.items)
  {
    var grown := s[rest..];
    if |grown| == 4 && grown[3] != LENGTH_FLAG {
      RejectSlides(s, rest, d);
      assert ScanFrom(s, rest, h) == Then(Reject(rest, BadLengthField), ScanFrom(s, rest + 1, |s|));
    } else if |grown| < 13 {
      assert ScanFrom(s, rest, h) == Parse([], rest);
    } else {
      assert s[rest..rest + 13] == grown;
      if SealedAt(s, rest) {
        assert ScanFrom(s, rest, h) == Parse([Emit(rest)], |s|);
      } else {
        RejectSlides(s, rest, d);
        assert ScanFrom(s, rest, h) == Then(Reject(rest, BadChecksum), ScanFrom(s, rest + 1, |s|));
      }
    }
  }

  lemma StepIsScan(s: seq<byte>, rest: nat, st: State, b: byte)
    requires rest <= |s| < rest + 13 && st.buf == s[rest..]
    ensures var t := ScanFrom(s + [b], rest, |s|);
            && Inside(t.items, |s| + 1)
            && Step(st, b).0.buf == (s + [b])[t.rest..]
            && Step(st, b).1 == Callbacks(s + [b], t.items)
  {
    var s' := s + [b];
    if rest == |s| && b != START_FLAG {
      assert s'[rest] == b && ScanFrom(s', |s'|, |s|) == Parse([], |s'|);
    } else {
      assert s'[rest..] == st.buf + [b] && s'[rest] == START_FLAG;
      SettleIsScan(s', rest, |s|, st.discarded);
    }
  }

  lemma CallbacksSplit(s: seq<byte>, b: byte, xs: seq<Item>, ys: seq<Item>)
    requires Inside(xs, |s|) && Inside(ys, |s| + 1)
    ensures Inside(xs + ys, |s| + 1)
    ensures Callbacks(s + [b], xs + ys) == Callbacks(s, xs) + Callbacks(s + [b], ys)
  {
    var s' := s + [b];
    forall k | 0 <= k < |xs| && xs[k].Emit?
      ensures s'[xs[k].at..xs[k].at + 13] == s[xs[k].at..xs[k].at + 13]
    {
    }
  }

  lemma LastApart(a: seq<byte>, data: seq<byte>)
    requires data != []
    ensures a + data == (a + data[..|data| - 1]) + [data[|data| - 1]]
  {
  }

  lemma NothingFed(st: State)
    ensures var r := ScanFrom(st.buf, 0, |st.buf|);
            r.items == [] && r.rest <= |st.buf| && st.buf == st.buf[r.rest..]
  {
  }

  lemma FeedLast(st: State, data: seq<byte>)
    requires data != []
    ensures var n := |data| - 1;
            && After(st, data) == Step(After(st, data[..n]), data[n]).0
            && Emitted(st, data) == Emitted(st, data[..n]) + Step(After(st, data[..n]), data[n]).1
  {
    hide Step;
  }

  /** From any state, feeding any bytes gives exactly the callbacks and the partial frame of the scan. */
  lemma {:induction false} FramerIsScan(st: State, data: seq<byte>)
    ensures var s := st.buf + data;
            var r := ScanFrom(s, 0, |st.buf|);
            && Inside(r.items, |s|)
            && After(st, data).buf == s[r.rest..]
            && Emitted(st, data) == Callbacks(s, r.items)
  {
    if data == [] {
      assert st.buf + data == st.buf;
      NothingFed(st);
      hide ScanFrom;
    } else {
      hide ScanFrom, After, Emitted, Step, Callbacks, Inside;
      var n := |data| - 1;
      FramerIsScan(st, data[..n]);
      FeedLast(st, data);
      LastApart(st.buf, data);
      ScanAdvances(st, data[..n], data[n]);
    }
  }

  lemma ScanAdvances(st: State, data: seq<byte>, b: byte)
    requires var s := st.buf + data;
             var r := ScanFrom(s, 0, |st.buf|);
             Inside(r.items, |s|) && After(st, data).buf == s[r.rest..]
    ensures var s := st.buf + data;
            var r := ScanFrom(s, 0, |st.buf|);
            var r' := ScanFrom(s + [b], 0, |st.buf|);
            var (st', outs) := Step(After(st, data), b);
            && Inside(r'.items, |s| + 1)
            && st'.buf == (s + [b])[r'.rest..]
            && Callbacks(s + [b], r'.items) == Callbacks(s, r.items) + outs
  {
    var s := st.buf + data;
    var r := ScanFrom(s, 0, |st.buf|);
    hide ScanFrom, After, Step, Callbacks, Inside;
    ScanResume(s, b, 0, |st.buf|);
    StepIsScan(s, r.rest, After(st, data), b);
    CallbacksSplit(s, b, r.items, ScanFrom(s + [b], r.rest, |s|).items);
  }
}
