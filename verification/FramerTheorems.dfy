/** What the framer promises over whole streams, from any state it can be in. */
module FramerTheorems {
  import opened Bytes
  import opened Protocol
  import opened Framer
  import opened Scan

  // ---------------------------------------------------------------------------
  // Greedy, disjoint, maximal
  // ---------------------------------------------------------------------------

  /** The emitted frames are disjoint sealed windows in stream order, and no complete frame is passed over
      unless an emitted one that began strictly earlier covers its start. */
  lemma {:induction false} GreedyMaximalParse(data: seq<byte>)
    ensures var r := ScanFrom(data, 0, 0);
            && Inside(r.items, |data|)
            && Emitted(EMPTY, data) == Callbacks(data, r.items)
            && After(EMPTY, data).buf == data[r.rest..]
            && Ordered(data, r.items, 0, r.rest)
            && forall p :: 0 <= p && FrameAt(data, p) ==> Emit(p) in r.items || Overlapped(r.items, p)
  {
    var r := ScanFrom(data, 0, 0);
    assert EMPTY.buf + data == data;
    FramerIsScan(EMPTY, data);
    ItemsInOrder(data, 0, 0);
    forall p | 0 <= p && FrameAt(data, p)
      ensures Emit(p) in r.items || Overlapped(r.items, p)
    {
      NoFrameSkipped(data, 0, 0, p);
    }
  }

  // ---------------------------------------------------------------------------
  // The length field of an emitted frame
  // ---------------------------------------------------------------------------

  ghost predicate NoStartIn(s: seq<byte>, i: nat, p: nat) {
    p <= |s| && forall k :: i <= k < p ==> s[k] != START_FLAG
  }

  /** p is the candidate promoted when q is dropped, and its length byte had already arrived by then. */
  ghost predicate Promoted(s: seq<byte>, q: nat, p: nat) {
    q < p <= q + 9 && NoStartIn(s, q + 1, p)
  }

  /** Some candidate failed its checksum and promoted p. */
  ghost predicate PromotedIn(items: seq<Item>, s: seq<byte>, p: nat) {
    exists k :: 0 <= k < |items| && items[k].Reject? && items[k].error == BadChecksum && Promoted(s, items[k].at, p)
  }

  lemma PromotedLater(x: Item, items: seq<Item>, s: seq<byte>, p: nat)
    requires PromotedIn(items, s, p)
    ensures PromotedIn([x] + items, s, p)
  {
    var k :| 0 <= k < |items| && items[k].Reject? && items[k].error == BadChecksum && Promoted(s, items[k].at, p);
    assert ([x] + items)[k + 1] == items[k];
  }

  /** An emitted frame either has the right length field, or was promoted by a bad checksum after that field had gone
      by. */
  lemma {:induction false} UncheckedWasPromoted(s: seq<byte>, i: nat, h: nat, p: nat)
    requires i <= |s| && Emit(p) in ScanFrom(s, i, h).items
    ensures i <= p && p + 13 <= |s|
    ensures || s[p + 3] == LENGTH_FLAG
            || PromotedIn(ScanFrom(s, i, h).items, s, p)
            || (p + 4 <= h && NoStartIn(s, i, p))
    decreases |s| - i
  {
    hide Sealed, PromotedIn;
    if s[i] != START_FLAG {
      UncheckedWasPromoted(s, i + 1, h, p);
    } else if h < i + 4 <= |s| && s[i + 3] != LENGTH_FLAG {
      var next := ScanFrom(s, i + 1, i + 4).items;
      UncheckedWasPromoted(s, i + 1, i + 4, p);
      if PromotedIn(next, s, p) { PromotedLater(Reject(i, BadLengthField), next, s, p); }
    } else if SealedAt(s, i) {
      var next := ScanFrom(s, i + 13, i + 13).items;
      if p != i {
        UncheckedWasPromoted(s, i + 13, i + 13, p);
        if PromotedIn(next, s, p) { PromotedLater(Emit(i), next, s, p); }
      }
    } else {
      var next := ScanFrom(s, i + 1, i + 13).items;
      UncheckedWasPromoted(s, i + 1, i + 13, p);
      if PromotedIn(next, s, p) {
        PromotedLater(Reject(i, BadChecksum), next, s, p);
      } else if p <= i + 9 && NoStartIn(s, i + 1, p) {
        PromotedFirst(i, next, s, p);
      }
    }
  }

  lemma PromotedFirst(q: nat, items: seq<Item>, s: seq<byte>, p: nat)
    requires q < p <= |s| && NoStartIn(s, q + 1, p) && p <= q + 9
    ensures PromotedIn([Reject(q, BadChecksum)] + items, s, p)
  {
    assert ([Reject(q, BadChecksum)] + items)[0] == Reject(q, BadChecksum);
  }

  lemma {:induction false} SlideTo(s: seq<byte>, i: nat, h: nat, p: nat)
    requires i <= p && NoStartIn(s, i, p)
    ensures ScanFrom(s, i, h) == ScanFrom(s, p, h)
    decreases p - i
  {
    if i < p {
      SlideTo(s, i + 1, h, p);
    }
  }

  /** Conversely a sealed window so promoted is emitted, whatever its length field. */
  lemma {:induction false} PromotedIsEmitted(s: seq<byte>, i: nat, h: nat, q: nat, p: nat)
    requires i <= |s| && Reject(q, BadChecksum) in ScanFrom(s, i, h).items
    requires Promoted(s, q, p) && SealedAt(s, p)
    ensures Emit(p) in ScanFrom(s, i, h).items
    decreases |s| - i
  {
    var items := ScanFrom(s, i, h).items;
    if s[i] != START_FLAG {
      PromotedIsEmitted(s, i + 1, h, q, p);
    } else if h < i + 4 <= |s| && s[i + 3] != LENGTH_FLAG {
      PromotedIsEmitted(s, i + 1, i + 4, q, p);
    } else if SealedAt(s, i) {
      PromotedIsEmitted(s, i + 13, i + 13, q, p);
    } else {
      var next := ScanFrom(s, i + 1, i + 13).items;
      if q == i {
        SlideTo(s, i + 1, i + 13, p);
        assert s[p..p + 13][0] == s[p];
        assert next[0] == Emit(p);
      } else {
        PromotedIsEmitted(s, i + 1, i + 13, q, p);
      }
    }
  }

  /** The documented invariant "every frame carries 0x08" holds of a stream exactly when no window promoted by a
      bad checksum within nine bytes is sealed around another length field. */
  lemma LengthFieldExact(s: seq<byte>)
    ensures var items := ScanFrom(s, 0, 0).items;
            (forall p: nat :: Emit(p) in items ==> FrameAt(s, p))
            <==>
            (forall p: nat :: PromotedIn(items, s, p) && SealedAt(s, p) ==> FrameAt(s, p))
  {
    var items := ScanFrom(s, 0, 0).items;
    forall p: nat | PromotedIn(items, s, p) && SealedAt(s, p)
      ensures Emit(p) in items
    {
      var k :| 0 <= k < |items| && items[k].Reject? && items[k].error == BadChecksum && Promoted(s, items[k].at, p);
      PromotedIsEmitted(s, 0, 0, items[k].at, p);
    }
    forall p: nat | Emit(p) in items
      ensures SealedAt(s, p) && (FrameAt(s, p) || PromotedIn(items, s, p))
    {
      UncheckedWasPromoted(s, 0, 0, p);
      ItemsInOrder(s, 0, 0);
      assert s[p..p + 13][3] == s[p + 3];
    }
  }

  /** A bad checksum is that of a complete window at a start flag. */
  lemma {:induction false} BadChecksumIsUnsealed(s: seq<byte>, i: nat, h: nat, q: nat)
    requires i <= |s| && Reject(q, BadChecksum) in ScanFrom(s, i, h).items
    ensures q + 13 <= |s| && s[q] == START_FLAG && !SealedAt(s, q)
    decreases |s| - i
  {
    hide Sealed;
    if s[i] != START_FLAG {
      BadChecksumIsUnsealed(s, i + 1, h, q);
    } else if h < i + 4 <= |s| && s[i + 3] != LENGTH_FLAG {
      BadChecksumIsUnsealed(s, i + 1, i + 4, q);
    } else if SealedAt(s, i) {
      BadChecksumIsUnsealed(s, i + 13, i + 13, q);
    } else if q != i {
      BadChecksumIsUnsealed(s, i + 1, i + 13, q);
    }
  }

  /** A condition on the bytes alone: if every sealed window that a complete but unsealed candidate at most nine bytes
      before it could promote, with no start flag between, has the right length field, then every emitted frame has. */
  lemma {:induction false} LengthFieldFromBytes(s: seq<byte>)
    requires forall q: nat, p: nat ::
               q + 13 <= |s| && s[q] == START_FLAG && !SealedAt(s, q) && Promoted(s, q, p) && SealedAt(s, p)
               ==> FrameAt(s, p)
    ensures forall p: nat :: Emit(p) in ScanFrom(s, 0, 0).items ==> FrameAt(s, p)
  {
    hide Sealed, WellFormed, Promoted;
    var items := ScanFrom(s, 0, 0).items;
    forall p: nat | PromotedIn(items, s, p) && SealedAt(s, p)
      ensures FrameAt(s, p)
    {
      var k :| 0 <= k < |items| && items[k].Reject? && items[k].error == BadChecksum && Promoted(s, items[k].at, p);
      assert items[k] == Reject(items[k].at, BadChecksum);
      BadChecksumIsUnsealed(s, 0, 0, items[k].at);
    }
    LengthFieldExact(s);
  }

  const FALSE_START: seq<byte> := ([0xA5] + Zeros(2)) + [8]
  const ODD_FRAME: seq<byte> := ([0xA5] + Zeros(11)) + [0xA5]

  lemma OddFrameSums()
    ensures Sum(ODD_FRAME[..12]) == 0xA5 && Sum((FALSE_START + ODD_FRAME)[..12]) == 0x152
  {
    assert Sum([0xA5]) == 0xA5 by { SumSnoc([], 0xA5); }
    assert ODD_FRAME[..12] == [0xA5] + Zeros(11);
    SumZeros([0xA5], 11);
    SumZeros([0xA5], 2);
    SumSnoc([0xA5] + Zeros(2), 8);
    SumSnoc(FALSE_START, 0xA5);
    SumZeros(FALSE_START + [0xA5], 7);
    assert (FALSE_START + ODD_FRAME)[..12] == (FALSE_START + [0xA5]) + Zeros(7);
  }

  /** A stream on which the invariant fails: a sealed window with length byte 0, begun inside a bad candidate. */
  lemma LengthFieldCounterexample()
    ensures var s := FALSE_START + ODD_FRAME;
            Emit(4) in ScanFrom(s, 0, 0).items && s[4 + 3] == 0
  {
    var s := FALSE_START + ODD_FRAME;
    OddFrameSums();
    hide Sum;
    assert s[0..13][..12] == s[..12] && s[4..17] == ODD_FRAME;
    assert !SealedAt(s, 0) && SealedAt(s, 4);
    assert ScanFrom(s, 0, 0) == Then(Reject(0, BadChecksum), ScanFrom(s, 1, 13));
    SlideTo(s, 1, 13, 4);
    assert ScanFrom(s, 4, 13) == Then(Emit(4), ScanFrom(s, 17, 17));
  }

  // ---------------------------------------------------------------------------
  // Frames byte by byte
  // ---------------------------------------------------------------------------

  /** Whatever is fed to a framer in whatever state, every frame it emits is sound. */
  lemma {:induction false} EmittedIsSound(st: State, data: seq<byte>)
    ensures forall k :: 0 <= k < |Emitted(st, data)| && Emitted(st, data)[k].Frame? ==>
              Sound(Emitted(st, data)[k].bytes)
    decreases |data|
  {
    hide Sealed, Sound;
    if data != [] {
      var n := |data| - 1;
      EmittedIsSound(st, data[..n]);
      FeedLast(st, data);
      StepIsSound(After(st, data[..n]), data[n]);
      hide Step, Emitted, After;
    }
  }

  lemma StepIsSound(st: State, b: byte)
    ensures var outs := Step(st, b).1;
            forall k :: 0 <= k < |outs| && outs[k].Frame? ==> Sound(outs[k].bytes)
  {
    SealedIsSound(st.buf + [b]);
    hide Sum, Sound, Resync;
  }

  /** A frame with one byte changed on the way, any byte to anything, is never emitted, whatever came before it. */
  lemma {:induction false} CorruptedNeverEmitted(st: State, data: seq<byte>, f: Message, k: nat, x: byte)
    requires Sound(f) && k < 13 && x != f[k]
    ensures Frame(f[k := x]) !in Emitted(st, data)
  {
    ChangedIsUnsound(f, k, x);
    EmittedIsSound(st, data);
    hide Sound, Emitted;
  }

  lemma ChangedIsUnsound(f: Message, k: nat, x: byte)
    requires Sound(f) && k < 13 && x != f[k]
    ensures !Sound(f[k := x])
  {
    if 0 < k < 12 {
      OneTermChanged(f, k, x);
      SameLowByte(SumOfTwelve(f), f[k], x);
      hide SumOfTwelve;
    }
  }

  lemma OneTermChanged(f: seq<int>, k: nat, x: int)
    requires |f| == 13 && k < 12
    ensures SumOfTwelve(f[k := x]) == SumOfTwelve(f) - f[k] + x
  {
  }

  lemma SameLowByte(sum: int, a: int, x: int)
    requires 0 <= a < 256 && 0 <= x < 256 && a != x
    ensures (sum - a + x) % 256 != sum % 256
  {
  }

  /** A framer holding nothing answers a sound frame with length byte 8 with that frame, one with a wrong sum with a
      checksum error, and a start flag followed three bytes later by anything but 8 with a length error. */
  lemma {:induction false} FrameOrError(st: State, m: Message)
    requires st.buf == [] && m[0] == 0xA5
    ensures m[3] == 8 && Sound(m) ==> Emitted(st, m) == [Frame(m)]
    ensures m[3] == 8 && !Sound(m) ==> Emitted(st, m) == [Rejected(BadChecksum)]
    ensures m[3] != 8 ==> Emitted(st, m[..4]) == [Rejected(BadLengthField)]
  {
    SealedIsSound(m);
    if m[3] == 8 {
      if Sound(m) {
        AlignedFrame(st, m);
      } else {
        Whole(st, m);
      }
    } else {
      FalseStart(st, m[..4]);
    }
    hide Emitted, Sound, Sealed;
  }

  lemma Whole(st: State, m: Message)
    requires st.buf == [] && m[0] == START_FLAG && m[3] == LENGTH_FLAG && !Sealed(m)
    ensures Emitted(st, m) == [Rejected(BadChecksum)]
  {
    hide Sealed;
    FramerIsScan(st, m);
    assert st.buf + m == m && m[0..13] == m;
    ScanTail(m, 1);
    assert ScanFrom(m, 0, 0) == Then(Reject(0, BadChecksum), ScanFrom(m, 1, 13));
    hide ScanFrom, Emitted, After;
  }

  lemma FalseStart(st: State, m: seq<byte>)
    requires st.buf == [] && |m| == 4 && m[0] == START_FLAG && m[3] != LENGTH_FLAG
    ensures Emitted(st, m) == [Rejected(BadLengthField)]
  {
    FramerIsScan(st, m);
    assert st.buf + m == m;
    ScanTail(m, 1);
    assert ScanFrom(m, 0, 0) == Then(Reject(0, BadLengthField), ScanFrom(m, 1, 4));
    hide ScanFrom, Emitted, After;
  }

  // ---------------------------------------------------------------------------
  // Self-synchronisation
  // ---------------------------------------------------------------------------

  function Frames(fs: seq<Message>): seq<Output> {
    if fs == [] then [] else Frames(fs[..|fs| - 1]) + [Frame(fs[|fs| - 1])]
  }

  /** Whatever precedes them, thirteen bytes with no start flag after the first leave nothing undecided. */
  lemma ThirteenBytesDrain(pre: seq<byte>, f: Message, i: nat, h: nat)
    requires NoStartIn(f, 1, 13) && i <= |pre| < 13
    ensures ScanFrom(pre + f, i, h).rest == |pre| + 13
  {
  }

  lemma AlignedFrame(st: State, f: Message)
    requires WellFormed(f) && st.buf == []
    ensures Emitted(st, f) == [Frame(f)] && After(st, f) == st
  {
    hide Sum, Wrap;
    FramerIsScan(st, f);
    assert st.buf + f == f && f[0..13] == f;
    assert ScanFrom(f, 0, 0) == Then(Emit(0), ScanFrom(f, 13, 13));
    ByteConservation(st, f);
    WrapSmall(st.discarded);
    hide Step, ScanFrom, After, Emitted;
  }

  /** Nothing held: well-formed frames come out one for one, whatever start flags they contain. */
  lemma {:induction false} AlignedFramesFlow(st: State, fs: seq<Message>)
    requires st.buf == [] && forall k :: 0 <= k < |fs| ==> WellFormed(fs[k])
    ensures After(st, Flat(fs)).buf == [] && Emitted(st, Flat(fs)) == Frames(fs)
  {
    hide WellFormed;
    if fs != [] {
      var init, last := fs[..|fs| - 1], fs[|fs| - 1];
      AlignedFramesFlow(st, init);
      AlignedFrame(After(st, Flat(init)), last);
      ChunkIndependence(st, Flat(init), last);
    }
  }

  /** From any state, well-formed frames sent back to back lose at most the first, if that one has no second start
      flag inside: after it nothing is held, and every later one comes out whole, in order, with no error between.
      The first may be any thirteen bytes with no start flag after its own. */
  lemma {:induction false} SelfSynchronisation(st: State, first: Message, rest: seq<Message>)
    requires NoStartIn(first, 1, 13) && forall k :: 0 <= k < |rest| ==> WellFormed(rest[k])
    ensures After(st, first).buf == []
    ensures After(st, first + Flat(rest)).buf == []
    ensures Emitted(st, first + Flat(rest)) == Emitted(st, first) + Frames(rest)
  {
    hide WellFormed;
    FramerIsScan(st, first);
    ThirteenBytesDrain(st.buf, first, 0, |st.buf|);
    ChunkIndependence(st, first, Flat(rest));
    AlignedFramesFlow(After(st, first), rest);
  }

  // ---------------------------------------------------------------------------
  // Byte conservation
  // ---------------------------------------------------------------------------

  function FrameCount(outs: seq<Output>): nat {
    if outs == [] then 0
    else FrameCount(outs[..|outs| - 1]) + (if outs[|outs| - 1].Frame? then 1 else 0)
  }

  lemma {:induction false} FrameCountAppend(a: seq<Output>, b: seq<Output>)
    ensures FrameCount(a + b) == FrameCount(a) + FrameCount(b)
  {
    if b == [] {
      assert a + b == a;
    } else {
      FrameCountAppend(a, b[..|b| - 1]);
      assert (a + b)[..|a + b| - 1] == a + b[..|b| - 1];
    }
  }

  /** Bytes that came in with `data` or were held before it, and are neither emitted in a frame nor held after it. */
  function Lost(st: State, outs: seq<Output>, fed: nat, st': State): int {
    |st.buf| + fed - 13 * FrameCount(outs) - |st'.buf|
  }

  lemma ResyncConserves(b: Buffer)
    requires 0 < |b.buf| <= MSG_LEN
    ensures var st := Resync(b);
            |st.buf| < |b.buf| && st.discarded == Wrap(b.discarded + |b.buf| - |st.buf|)
  {
    hide NextStart, Wrap;
  }

  lemma StepConserves(st: State, b: byte)
    ensures var (st', outs) := Step(st, b);
            0 <= Lost(st, outs, 1, st') && st'.discarded == Wrap(st.discarded + Lost(st, outs, 1, st'))
  {
    hide Checksum, Wrap, Resync;
    WrapSmall(st.discarded);
    ResyncConserves(st.(buf := st.buf + [b]));
    assert FrameCount([]) == 0;
    assert forall o :: FrameCount([o]) == if o.Frame? then 1 else 0;
    hide FrameCount;
  }

  lemma NothingLost(st: State)
    ensures Emitted(st, []) == [] && After(st, []) == st && FrameCount([]) == 0 && Wrap(st.discarded) == st.discarded
  {
    WrapSmall(st.discarded);
  }

  /** discarded() is what has come in and is neither in an emitted frame nor still held, modulo 2^32. */
  lemma {:induction false} ByteConservation(st: State, data: seq<byte>)
    ensures var lost := |st.buf| + |data| - 13 * FrameCount(Emitted(st, data)) - |After(st, data).buf|;
            0 <= lost && After(st, data).discarded == Wrap(st.discarded + lost)
  {
    hide Wrap, Step, FrameCount, Emitted, After;
    if data == [] {
      NothingLost(st);
    } else {
      var init, b := data[..|data| - 1], data[|data| - 1];
      var mid := After(st, init);
      var (st', outs) := Step(mid, b);
      ByteConservation(st, init);
      StepConserves(mid, b);
      FeedLast(st, data);
      FrameCountAppend(Emitted(st, init), outs);
      WrapAdd(st.discarded + Lost(st, Emitted(st, init), |init|, mid), Lost(mid, outs, 1, st'));
    }
  }

  // ---------------------------------------------------------------------------
  // Junk, position by position
  // ---------------------------------------------------------------------------

  /** Position p lies in an emitted window. */
  ghost predicate Owned(items: seq<Item>, p: nat) {
    exists k :: 0 <= k < |items| && items[k].Emit? && items[k].at <= p < items[k].at + 13
  }

  /** The positions in [lo, hi) that no emitted window contains. */
  ghost function Junk(items: seq<Item>, lo: nat, hi: nat): set<nat> {
    set p: nat | lo <= p < hi && !Owned(items, p)
  }

  function Emits(items: seq<Item>): nat {
    if items == [] then 0 else (if items[0].Emit? then 1 else 0) + Emits(items[1..])
  }

  lemma OwnedCons(x: Item, items: seq<Item>, p: nat)
    ensures Owned([x] + items, p) <==> (x.Emit? && x.at <= p < x.at + 13) || Owned(items, p)
  {
    if Owned(items, p) {
      var k :| 0 <= k < |items| && items[k].Emit? && items[k].at <= p < items[k].at + 13;
      assert ([x] + items)[k + 1] == items[k];
    }
    assert ([x] + items)[0] == x;
  }

  lemma JunkSkip(items: seq<Item>, lo: nat, hi: nat)
    requires lo < hi && !Owned(items, lo)
    ensures |Junk(items, lo, hi)| == 1 + |Junk(items, lo + 1, hi)|
  {
    assert Junk(items, lo, hi) == {lo} + Junk(items, lo + 1, hi);
  }

  lemma JunkCons(x: Item, items: seq<Item>, hi: nat)
    requires x.at + Width(x) <= hi
    requires forall p: nat :: p < x.at + Width(x) ==> !Owned(items, p)
    ensures |Junk([x] + items, x.at, hi)| == |Junk(items, x.at + Width(x), hi)| + if x.Emit? then 0 else 1
  {
    forall p: nat
      ensures Owned([x] + items, p) <==> (x.Emit? && x.at <= p < x.at + 13) || Owned(items, p)
    {
      OwnedCons(x, items, p);
    }
    hide Owned;
    if x.Emit? {
      assert Junk([x] + items, x.at, hi) == Junk(items, x.at + 13, hi);
    } else {
      assert Junk([x] + items, x.at, hi) == {x.at} + Junk(items, x.at + 1, hi);
    }
  }

  lemma OwnedFrom(s: seq<byte>, i: nat, h: nat)
    requires i <= |s|
    ensures forall p: nat :: p < i ==> !Owned(ScanFrom(s, i, h).items, p)
  {
    ItemsInOrder(s, i, h);
    hide ScanFrom;
  }

  /** Up to its undecided tail, a scan's positions are the junk and thirteen for each emitted window. */
  lemma {:induction false} JunkCount(s: seq<byte>, i: nat, h: nat)
    requires i <= |s|
    ensures var r := ScanFrom(s, i, h);
            |Junk(r.items, i, r.rest)| + 13 * Emits(r.items) == r.rest - i
    decreases |s| - i, 0
  {
    hide Junk, Owned, Sealed;
    if i == |s| {
      NoJunk([], i);
    } else if s[i] != START_FLAG {
      var r := ScanFrom(s, i + 1, h);
      JunkCount(s, i + 1, h);
      OwnedFrom(s, i + 1, h);
      JunkSkip(r.items, i, r.rest);
    } else if h < i + 4 <= |s| && s[i + 3] != LENGTH_FLAG {
      JunkAfter(s, Reject(i, BadLengthField), i + 1, i + 4);
    } else if |s| < i + 13 {
      NoJunk([], i);
    } else if SealedAt(s, i) {
      JunkAfter(s, Emit(i), i + 13, i + 13);
    } else {
      JunkAfter(s, Reject(i, BadChecksum), i + 1, i + 13);
    }
  }

  lemma NoJunk(items: seq<Item>, i: nat)
    ensures Junk(items, i, i) == {}
  {
  }

  /** The same with one more item in front. */
  lemma {:induction false} JunkAfter(s: seq<byte>, x: Item, i: nat, h: nat)
    requires i <= |s| && x.at + Width(x) == i
    ensures var r := Then(x, ScanFrom(s, i, h));
            |Junk(r.items, x.at, r.rest)| + 13 * Emits(r.items) == r.rest - x.at
    decreases |s| - i, 1
  {
    hide Junk, Owned;
    var r := ScanFrom(s, i, h);
    JunkCount(s, i, h);
    OwnedFrom(s, i, h);
    JunkCons(x, r.items, r.rest);
    assert ([x] + r.items)[1..] == r.items;
    hide ScanFrom;
  }

  lemma {:induction false} EmitsAreFrames(s: seq<byte>, items: seq<Item>)
    requires Inside(items, |s|)
    ensures FrameCount(Callbacks(s, items)) == Emits(items)
    decreases |items|
  {
    if items != [] {
      var head := [Callback(s, items[0])];
      EmitsAreFrames(s, items[1..]);
      assert Callbacks(s, items) == head + Callbacks(s, items[1..]);
      FrameCountAppend(head, Callbacks(s, items[1..]));
      assert FrameCount(head) == if items[0].Emit? then 1 else 0;
    }
  }

  /** discarded() counts, modulo 2^32, the positions of the stream that lie before the undecided tail and in no
      emitted window. */
  lemma {:induction false} DiscardedCountsJunk(st: State, data: seq<byte>)
    ensures var r := ScanFrom(st.buf + data, 0, |st.buf|);
            After(st, data).discarded == Wrap(st.discarded + |Junk(r.items, 0, r.rest)|)
  {
    hide Junk, ScanFrom, Emits, FrameCount, Wrap;
    var s := st.buf + data;
    var r := ScanFrom(s, 0, |st.buf|);
    FramerIsScan(st, data);
    JunkCount(s, 0, |st.buf|);
    EmitsAreFrames(s, r.items);
    ByteConservation(st, data);
    hide After, Emitted, Callbacks;
  }
}
