/**
 What a paginated reply reports when it is finished, whole or cut short: the pages
 from the lowest number heard up to the first one missing, each as last heard.
 */
module Partial {
  import opened Bytes
  import opened Protocol
  import opened Bits
  import opened Decode
  import opened Session
  import opened Monitor
  import opened Safety
  import opened RoundTrip

  // ---------------------------------------------------------------------------
  // The pages that count
  // ---------------------------------------------------------------------------

  /** Number c was last heard in frame k. */
  ghost predicate LastHeard(heard: seq<DataBytes>, k: nat, c: nat) {
    k < |heard| && heard[k][0] == c && forall j :: k < j < |heard| ==> heard[j][0] != c
  }

  /** The n numbers from b on have been heard, none below b, and not the next. */
  ghost predicate Stretch(heard: seq<DataBytes>, b: nat, n: nat) {
    && 0 < n && b + n <= 17
    && (forall k :: 0 <= k < |heard| ==> b <= heard[k][0])
    && (forall c :: b <= c < b + n ==> Arrived(heard, c))
    && !Arrived(heard, b + n)
  }

  /** The stretch is found by the two mask loops. */
  lemma StretchFound(heard: seq<DataBytes>, b: nat, n: nat)
    requires Stretch(heard, b, n)
    ensures forall c :: b <= c < b + n ==> c in Counters(heard)
    ensures Unbroken(heard, 7) == Pages(heard, b, n, 7) && Unbroken(heard, 6) == Pages(heard, b, n, 6)
  {
    var seen := Counters(heard);
    forall c: nat
      ensures c in seen <==> Arrived(heard, c)
    {
      Numbered(heard, c);
    }
    assert Arrived(heard, b);
    LowestIs(seen, 0, b);
    RunIs(seen, b, n);
    hide Counters, LowestFrom, RunFrom, Pages;
  }

  /** There always is one, once a page has been heard. */
  lemma StretchExists(heard: seq<DataBytes>)
    requires heard != [] && forall k :: 0 <= k < |heard| ==> heard[k][0] <= 16
    ensures exists b, n :: Stretch(heard, b, n)
  {
    var seen := Counters(heard);
    forall c: nat
      ensures c in seen <==> Arrived(heard, c)
    {
      Numbered(heard, c);
    }
    var b := LowestFrom(seen, 0);
    forall k | 0 <= k < |heard|
      ensures b in seen && b <= heard[k][0]
    {
      assert Arrived(heard, heard[k][0]);
      LowestIsMinimum(seen, 0, heard[k][0]);
    }
    assert b in seen && heard[0][0] >= b;
    RunIsMaximal(seen, b);
    assert Stretch(heard, b, RunFrom(seen, b)) by { hide Counters, LowestFrom; }
  }

  lemma {:induction false} LatestHeard(heard: seq<DataBytes>, k: nat, c: nat, width: nat)
    requires LastHeard(heard, k, c) && width <= 7
    ensures c in Counters(heard) && Latest(heard, c, width) == heard[k][1..1 + width]
    decreases |heard|
  {
    var n := |heard| - 1;
    if k < n {
      assert LastHeard(heard[..n], k, c);
      LatestHeard(heard[..n], k, c, width);
    }
  }

  lemma {:induction false} PageByte(heard: seq<DataBytes>, b: nat, n: nat, width: nat, i: nat, j: nat, k: nat)
    requires width <= 7 && forall c :: b <= c < b + n ==> c in Counters(heard)
    requires i < n && j < width && LastHeard(heard, k, b + i)
    ensures Offset(i, width) + j < Offset(n, width)
    ensures Pages(heard, b, n, width)[Offset(i, width) + j] == heard[k][1 + j]
    decreases n
  {
    NextSlot(n - 1, width);
    LatestHeard(heard, k, b + i, width);
    hide Counters, Latest, Offset;
    if i < n - 1 {
      PageByte(heard, b, n - 1, width, i, j, k);
    }
  }

  lemma SixByte(heard: seq<DataBytes>, b: nat, n: nat, i: nat, k: nat)
    requires forall c :: b <= c < b + n ==> c in Counters(heard)
    requires i < 6 * n && LastHeard(heard, k, b + i / 6)
    ensures |Pages(heard, b, n, 6)| == 6 * n && Pages(heard, b, n, 6)[i] == heard[k][1 + i % 6]
  {
    PageByte(heard, b, n, 6, i / 6, i % 6, k);
  }

  lemma SevenByte(heard: seq<DataBytes>, b: nat, n: nat, i: nat, k: nat)
    requires forall c :: b <= c < b + n ==> c in Counters(heard)
    requires i < 7 * n && LastHeard(heard, k, b + i / 7)
    ensures |Pages(heard, b, n, 7)| == 7 * n && Pages(heard, b, n, 7)[i] == heard[k][1 + i % 7]
  {
    PageByte(heard, b, n, 7, i / 7, i % 7, k);
  }

  // ---------------------------------------------------------------------------
  // Cells, sensors and texts
  // ---------------------------------------------------------------------------

  function Least(a: nat, b: nat, c: nat): nat {
    if a <= b && a <= c then a else if b <= c then b else c
  }

  /** Three cells a page, at most 48, and no more than asked for when a count is known; high byte first. */
  ghost predicate CellsOf(mv: seq<nat>, items: byte, heard: seq<DataBytes>, b: nat, n: nat) {
    && |mv| == Least(3 * n, 48, if items == 0 then 48 else items)
    && forall i: nat, k: nat :: i < |mv| && LastHeard(heard, k, b + i / 3) ==>
         mv[i] == 256 * (heard[k][1 + 2 * (i % 3)] as int) + heard[k][2 + 2 * (i % 3)]
  }

  lemma CellAt(heard: seq<DataBytes>, b: nat, n: nat, len: nat, i: nat, k: nat)
    requires forall c :: b <= c < b + n ==> c in Counters(heard)
    requires 2 * i + 1 < len <= 6 * n && LastHeard(heard, k, b + i / 3) && |Pages(heard, b, n, 6)| == 6 * n
    ensures var s := Pages(heard, b, n, 6)[..len];
            Word(s[2 * i], s[2 * i + 1]) == 256 * (heard[k][1 + 2 * (i % 3)] as int) + heard[k][2 + 2 * (i % 3)]
  {
    SixByte(heard, b, n, 2 * i, k);
    SixByte(heard, b, n, 2 * i + 1, k);
    hide Pages, Counters, LastHeard;
  }

  /** The cells a reply reports are those of the pages heard up to the first one missing. */
  lemma CellsReported(items: byte, heard: seq<DataBytes>, b: nat, n: nat)
    requires Stretch(heard, b, n)
    ensures exists mv :: PagedPayload(0x95, items, heard) == Some(CellVoltages(mv)) && CellsOf(mv, items, heard, b, n)
  {
    StretchFound(heard, b, n);
    var bytes := Pages(heard, b, n, 6);
    var len := TrimmedLen(0x95, items, |bytes|);
    var mv := Cells(bytes[..len], Min(len / 2, 48));
    hide Pages, Unbroken, Counters, LastHeard, TrimmedLen, Stretch, LowestFrom;
    assert PagedPayload(0x95, items, heard) == Some(CellVoltages(mv));
    CellsCounted(items, n);
    forall i: nat, k: nat | i < |mv| && LastHeard(heard, k, b + i / 3)
      ensures mv[i] == 256 * (heard[k][1 + 2 * (i % 3)] as int) + heard[k][2 + 2 * (i % 3)]
    {
      CellAt(heard, b, n, len, i, k);
    }
  }

  lemma CellsCounted(items: byte, n: nat)
    ensures Min(TrimmedLen(0x95, items, 6 * n) / 2, 48) == Least(3 * n, 48, if items == 0 then 48 else items)
  {
  }

  /** Seven sensors a page, at most 21, likewise; each offset by 40. */
  ghost predicate SensorsOf(t: seq<int>, items: byte, heard: seq<DataBytes>, b: nat, n: nat) {
    && |t| == Least(7 * n, 21, if items == 0 then 21 else items)
    && forall i: nat, k: nat :: i < |t| && LastHeard(heard, k, b + i / 7) ==> t[i] + 40 == heard[k][1 + i % 7]
  }

  /** And so with the sensors. */
  lemma SensorsReported(items: byte, heard: seq<DataBytes>, b: nat, n: nat)
    requires Stretch(heard, b, n)
    ensures exists t ::
              PagedPayload(0x96, items, heard) == Some(CellTemperatures(t)) && SensorsOf(t, items, heard, b, n)
  {
    StretchFound(heard, b, n);
    var bytes := Pages(heard, b, n, 7);
    var s := bytes[..TrimmedLen(0x96, items, |bytes|)];
    var t := Temperatures(s[..Min(|s|, 21)]);
    forall i: nat, k: nat | i < |t| && LastHeard(heard, k, b + i / 7)
      ensures t[i] + 40 == heard[k][1 + i % 7]
    {
      SevenByte(heard, b, n, i, k);
      hide Pages, Counters, LastHeard;
    }
    hide Pages, Unbroken, Counters, LastHeard;
    assert PagedPayload(0x96, items, heard) == Some(CellTemperatures(t));
  }

  /** Seven characters a page, up to the length of the text in full. */
  ghost predicate TextOf(text: seq<byte>, full: nat, heard: seq<DataBytes>, b: nat, n: nat) {
    && |text| == Least(7 * n, full, full)
    && forall i: nat, k: nat :: i < |text| && LastHeard(heard, k, b + i / 7) ==> text[i] == heard[k][1 + i % 7]
  }

  /** And with the texts, of 16, 32 or 14 characters in full: a name is cut short rather than given a hole. */
  lemma TextReported(id: byte, heard: seq<DataBytes>, b: nat, n: nat)
    requires Stretch(heard, b, n) && id in {0x55, 0x56, 0x57, 0x6A, 0x62, 0x63}
    ensures var full := if id == 0x55 then 16 else if id in {0x62, 0x63} then 14 else 32;
            exists text ::
              && TextOf(text, full, heard, b, n)
              && PagedPayload(id, 0, heard) == Some(if id in {0x62, 0x63} then Version(text) else Text(text))
  {
    StretchFound(heard, b, n);
    hide Pages, Unbroken, Stretch, TextOf, LowestFrom;
    var bytes := Pages(heard, b, n, 7);
    var full := if id == 0x55 then 16 else if id in {0x62, 0x63} then 14 else 32;
    var text := bytes[..Min(|bytes|, full)];
    assert TrimmedLen(id, 0, |bytes|) == |text| && MultiframeInfo(id).bytesPerFrame == 7;
    assert text[..|text|] == text;
    assert PagedPayload(id, 0, heard) == Some(if id in {0x62, 0x63} then Version(text) else Text(text)) by {
      hide TrimmedLen, MultiframeInfo;
    }
    TextCut(heard, b, n, full);
  }

  lemma TextCut(heard: seq<DataBytes>, b: nat, n: nat, full: nat)
    requires forall c :: b <= c < b + n ==> c in Counters(heard)
    ensures var bytes := Pages(heard, b, n, 7);
            TextOf(bytes[..Min(|bytes|, full)], full, heard, b, n)
  {
    var bytes := Pages(heard, b, n, 7);
    assert |bytes| == 7 * n;
    forall i: nat, k: nat | i < |bytes| && LastHeard(heard, k, b + i / 7)
      ensures bytes[i] == heard[k][1 + i % 7]
    {
      SevenByte(heard, b, n, i, k);
    }
    hide Pages, Counters, LastHeard;
  }
}
