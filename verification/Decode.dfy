/** Pagination metadata and payload decoding. Nothing here carries transaction state. */
module Decode {
  import opened Bytes
  import opened Protocol

  const MAX_CELLS: nat := 48
  const MAX_TEMPERATURES: nat := 21
  const MAX_TEXT_LEN: nat := 32
  const MAX_VERSION_LEN: nat := 14
  const MAX_REASSEMBLY_LEN: nat := 96
  const FAULT_RECORD_LEN: nat := 27

  // ---------------------------------------------------------------------------
  // Pagination metadata
  // ---------------------------------------------------------------------------

  datatype MultiFrameInfo = MultiFrameInfo(
    multi: bool, streaming: bool, frameBase: nat, bytesPerFrame: nat, frameCount: nat, totalBytes: nat)

  function MultiframeInfo(id: byte): MultiFrameInfo {
    if id == MANUFACTURER_NAME then MultiFrameInfo(true, false, 1, 7, 3, 16)
    else if id == BATTERY_NAME || id == BATTERY_SERIAL_NUMBER || id == SN_SERIAL_NUMBER then
      MultiFrameInfo(true, false, 1, 7, 5, 32)
    else if id == SOFTWARE_VERSION || id == HARDWARE_VERSION then MultiFrameInfo(true, false, 0, 7, 2, 14)
    else if id == CELL_VOLTAGES then MultiFrameInfo(true, false, 0, 6, 0, 0)
    else if id == CELL_TEMPERATURES then MultiFrameInfo(true, false, 0, 7, 0, 0)
    else if id == FAULT_RECORDS then MultiFrameInfo(true, true, 0, 7, 0, 0)
    else MultiFrameInfo(false, false, 0, 0, 0, 0)
  }

  /** A bounded reply spread over several frames; everything multi-frame but 0x64. */
  predicate Paginated(id: byte) {
    MultiframeInfo(id).multi && !MultiframeInfo(id).streaming
  }

  /** Rounds `count` items up to whole frames, capped. */
  function FramesFor(count: byte, perFrame: nat, maxFrames: nat): nat
    requires 0 < perFrame
  {
    if count == 0 then 0 else Min((count + (perFrame - 1)) / perFrame, maxFrames)
  }

  /** The fewest three-cell frames that hold `cells`, up to sixteen. */
  function CellVoltageFrames(cells: byte): (n: nat)
    ensures n <= 16 && (n == 0 <==> cells == 0)
    ensures 3 * n < cells + 3 && (n < 16 ==> cells <= 3 * n)
  {
    FramesFor(cells, 3, 16)
  }

  /** The fewest seven-sensor frames that hold `sensors`, up to three. */
  function CellTemperatureFrames(sensors: byte): (n: nat)
    ensures n <= 3 && (n == 0 <==> sensors == 0)
    ensures 7 * n < sensors + 7 && (n < 3 ==> sensors <= 7 * n)
  {
    FramesFor(sensors, 7, 3)
  }

  /** Frames a reply of `id` is expected to take once `items` is resolved; 0 when unknown. */
  function ExpectedFrames(id: byte, items: byte): nat {
    if id == CELL_VOLTAGES then CellVoltageFrames(items)
    else if id == CELL_TEMPERATURES then CellTemperatureFrames(items)
    else MultiframeInfo(id).frameCount
  }

  // ---------------------------------------------------------------------------
  // Payloads
  // ---------------------------------------------------------------------------

  datatype FaultRecord = FaultRecord(
    year: nat, month: byte, day: byte, hour: byte, minute: byte, second: byte,
    recordId: byte, occurred: bool, totalVoltageDv: nat, currentDa: int, socPm: nat,
    chargeMosOn: bool, dischargeMosOn: bool,
    highestCellMv: nat, highestCellNumber: byte, lowestCellMv: nat, lowestCellNumber: byte,
    highestTempC: int, highestTempNumber: byte, lowestTempC: int, lowestTempNumber: byte,
    faultCode: byte, checksumOk: bool)

  datatype Payload =
    | NoPayload
    | Single(data: DataBytes)
    | MosControlAck(requested: bool, reported: bool)
    | Text(text: seq<byte>)
    | Version(text: seq<byte>)
    | CellVoltages(mv: seq<nat>)
    | CellTemperatures(celsius: seq<int>)
    | Fault(record: FaultRecord)

  /** Big-endian 16-bit field. */
  function Word(hi: int, lo: int): int {
    256 * hi + lo
  }

  function Be16(s: seq<byte>, at: nat): nat
    requires at + 1 < |s|
  {
    Word(s[at], s[at + 1])
  }

  /** Deciamps, narrowed to 16 bits as the cast does. */
  function ToCurrent(raw: int): int {
    var d := (raw - 30000) % 0x1_0000;
    if d < 0x8000 then d else d - 0x1_0000
  }

  function ToCelsius(raw: int): int {
    raw - 40
  }

  function ToYear(raw: int): int {
    raw + 2000
  }

  /** The Data IDs decode_single() has a case for. */
  predicate HasSingleDecoder(id: byte) {
    || 0x70 <= id <= 0x8A
    || 0x50 <= id <= 0x54 || 0x58 <= id <= 0x61 || 0x65 <= id <= 0x69
    || 0x90 <= id <= 0x94 || 0x97 <= id <= 0x9A || id == 0xD8
  }

  // ---------------------------------------------------------------------------
  // Paginated decoders
  // ---------------------------------------------------------------------------

  function Cells(s: seq<byte>, n: nat): (mv: seq<nat>)
    requires 2 * n <= |s|
    ensures |mv| == n && forall i :: 0 <= i < n ==> mv[i] == Word(s[2 * i], s[2 * i + 1])
  {
    seq(n, i requires 0 <= i < n => Be16(s, 2 * i))
  }

  function Temperatures(s: seq<byte>): (t: seq<int>)
    ensures |t| == |s| && forall i :: 0 <= i < |s| ==> t[i] == ToCelsius(s[i])
  {
    seq(|s|, i requires 0 <= i < |s| => ToCelsius(s[i]))
  }

  function DecodePages(id: byte, s: seq<byte>): Option<Payload> {
    if id == MANUFACTURER_NAME || id == BATTERY_NAME || id == BATTERY_SERIAL_NUMBER || id == SN_SERIAL_NUMBER then
      Some(Text(s[..Min(|s|, MAX_TEXT_LEN)]))
    else if id == SOFTWARE_VERSION || id == HARDWARE_VERSION then
      Some(Version(s[..Min(|s|, MAX_VERSION_LEN)]))
    else if id == CELL_VOLTAGES then
      Some(CellVoltages(Cells(s, Min(|s| / 2, MAX_CELLS))))
    else if id == CELL_TEMPERATURES then
      Some(CellTemperatures(Temperatures(s[..Min(|s|, MAX_TEMPERATURES)])))
    else
      None
  }

  /** Decodes the `len` bytes of `buf` from `start` on. */
  method DecodeMulti(id: byte, buf: array<byte>, start: nat, len: nat) returns (out: Option<Payload>)
    requires start + len <= buf.Length
    ensures out == DecodePages(id, buf[start..start + len])
  {
    ghost var s := buf[start..start + len];
    if id == MANUFACTURER_NAME || id == BATTERY_NAME || id == BATTERY_SERIAL_NUMBER || id == SN_SERIAL_NUMBER {
      var text := CopyText(buf, start, Min(len, MAX_TEXT_LEN));
      assert text == s[..Min(len, MAX_TEXT_LEN)];
      return Some(Text(text));
    }
    if id == SOFTWARE_VERSION || id == HARDWARE_VERSION {
      var text := CopyText(buf, start, Min(len, MAX_VERSION_LEN));
      assert text == s[..Min(len, MAX_VERSION_LEN)];
      return Some(Version(text));
    }
    if id == CELL_VOLTAGES {
      var cells, mv := Min(len / 2, MAX_CELLS), [];
      for i := 0 to cells
        invariant |mv| == i && forall k :: 0 <= k < i ==> mv[k] == Cells(s, cells)[k]
      {
        mv := mv + [Word(buf[start + 2 * i], buf[start + 2 * i + 1])];
      }
      assert mv == Cells(s, cells);
      return Some(CellVoltages(mv));
    }
    if id == CELL_TEMPERATURES {
      var temps, celsius: seq<int> := Min(len, MAX_TEMPERATURES), [];
      for i := 0 to temps
        invariant |celsius| == i && forall k :: 0 <= k < i ==> celsius[k] == ToCelsius(s[k])
      {
        celsius := celsius + [ToCelsius(buf[start + i])];
      }
      assert celsius == Temperatures(s[..temps]);
      return Some(CellTemperatures(celsius));
    }
    return None;
  }

  method CopyText(buf: array<byte>, start: nat, n: nat) returns (text: seq<byte>)
    requires start + n <= buf.Length
    ensures text == buf[start..start + n]
  {
    text := [];
    for i := 0 to n
      invariant text == buf[start..start + i]
    {
      text := text + [buf[start + i]];
    }
  }

  // ---------------------------------------------------------------------------
  // Fault records
  // ---------------------------------------------------------------------------

  function FaultFields(r: seq<byte>): FaultRecord
    requires |r| >= FAULT_RECORD_LEN
  {
    FaultRecord(
      ToYear(r[0]), r[1], r[2], r[3], r[4], r[5],
      r[6], r[7] != 0, Be16(r, 8), ToCurrent(Be16(r, 0xA)), Be16(r, 0xC),
      r[0xE] % 2 == 1, r[0xE] / 2 % 2 == 1,
      Be16(r, 0xF), r[0x11], Be16(r, 0x12), r[0x14],
      ToCelsius(r[0x15]), r[0x16], ToCelsius(r[0x17]), r[0x18],
      r[0x19], r[0x1A] == Sum(r[..0x1A]) % 256 || r[0x1A] == Sum(r[..18]) % 256)
  }

  /** A record shorter than its 27 bytes is not decoded. */
  function DecodeFault(r: seq<byte>): Option<FaultRecord> {
    if |r| < FAULT_RECORD_LEN then None else Some(FaultFields(r))
  }

  method RunningSum(buf: array<byte>, n: nat) returns (sum: byte)
    requires n <= buf.Length
    ensures sum == Sum(buf[..n]) % 256
  {
    sum := 0;
    for i := 0 to n
      invariant sum == Sum(buf[..i]) % 256
    {
      assert buf[..i + 1][..i] == buf[..i];
      sum := (sum + buf[i]) % 256;
    }
  }

  method DecodeFaultRecord(record: array<byte>, len: nat) returns (out: Option<FaultRecord>)
    requires len <= record.Length
    ensures out == DecodeFault(record[..len])
  {
    if len < FAULT_RECORD_LEN {
      return None;
    }
    ghost var r := record[..len];
    var sumAll := RunningSum(record, 0x1A);
    var sumDec := RunningSum(record, 18);
    assert r[..0x1A] == record[..0x1A] && r[..18] == record[..18];
    var fields := FaultRecord(
      ToYear(record[0]), record[1], record[2], record[3], record[4], record[5],
      record[6], record[7] != 0,
      Word(record[8], record[9]), ToCurrent(Word(record[0xA], record[0xB])), Word(record[0xC], record[0xD]),
      record[0xE] % 2 == 1, record[0xE] / 2 % 2 == 1,
      Word(record[0xF], record[0x10]), record[0x11], Word(record[0x12], record[0x13]), record[0x14],
      ToCelsius(record[0x15]), record[0x16], ToCelsius(record[0x17]), record[0x18],
      record[0x19], record[0x1A] == sumAll || record[0x1A] == sumDec);
    out := Some(fields);
  }
}
