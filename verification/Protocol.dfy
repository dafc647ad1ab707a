/** The stateless codec: frame layout, Data IDs and the checksum. */
module Protocol {
  import opened Bytes

  const MSG_LEN: nat := 13
  const DATA_LEN: nat := 8
  const START_FLAG: byte := 0xA5
  const LENGTH_FLAG: byte := 0x08

  type DataBytes = d: seq<byte> | |d| == 8 witness [0, 0, 0, 0, 0, 0, 0, 0]
  type Message = m: seq<byte> | |m| == 13 witness [0, 0, 0, 0, 0, 0, 0, 0, 0, 0, 0, 0, 0]

  const CAPACITY_VOLTAGE: byte := 0x50
  const BMU_CELL_TEMP_COUNT: byte := 0x51
  const MANUFACTURER_NAME: byte := 0x55
  const BATTERY_NAME: byte := 0x56
  const BATTERY_SERIAL_NUMBER: byte := 0x57
  const SOFTWARE_VERSION: byte := 0x62
  const HARDWARE_VERSION: byte := 0x63
  const FAULT_RECORDS: byte := 0x64
  const SN_SERIAL_NUMBER: byte := 0x6A
  const STATUS_INFO: byte := 0x94
  const CELL_VOLTAGES: byte := 0x95
  const CELL_TEMPERATURES: byte := 0x96
  const DISCHARGE_MOS_CONTROL: byte := 0xD9
  const CHARGE_MOS_CONTROL: byte := 0xDA

  predicate IsKnownDataId(id: byte) {
    0x50 <= id <= 0x6A || 0x70 <= id <= 0x8A || 0x90 <= id <= 0x9A || 0xD8 <= id <= 0xDA
  }

  predicate IsMosControl(id: byte) {
    id == DISCHARGE_MOS_CONTROL || id == CHARGE_MOS_CONTROL
  }

  /** Low byte of the sum of the twelve bytes before the checksum. */
  function Checksum(msg: seq<byte>): byte
    requires |msg| == MSG_LEN
  {
    Sum(msg[..12]) % 256
  }

  /** A start flag at the front and a matching checksum at the back. */
  predicate Sealed(msg: seq<byte>) {
    |msg| == MSG_LEN && msg[0] == START_FLAG && msg[12] == Checksum(msg)
  }

  /** A frame as the protocol defines it: sealed, with the fixed length field. */
  predicate WellFormed(msg: seq<byte>) {
    Sealed(msg) && msg[3] == LENGTH_FLAG
  }

  function DataOf(msg: Message): DataBytes {
    msg[4..12]
  }

  function Encode(host: byte, id: byte, data: DataBytes): (msg: Message)
    ensures WellFormed(msg) && msg[1] == host && msg[2] == id && DataOf(msg) == data
  {
    var body: seq<byte> := [START_FLAG, host, id, LENGTH_FLAG] + data;
    var msg: seq<byte> := body + [Sum(body) % 256];
    assert msg[..12] == body;
    msg
  }

  /** The twelve bytes a checksum covers, added up. */
  function SumOfTwelve(m: seq<int>): int
    requires |m| >= 12
  {
    m[0] + m[1] + m[2] + m[3] + m[4] + m[5] + m[6] + m[7] + m[8] + m[9] + m[10] + m[11]
  }

  /** What a receiver may take for a frame: start flag in front, low byte of the sum at the end. */
  predicate Sound(m: seq<int>) {
    |m| == 13 && m[0] == 0xA5 && m[12] == SumOfTwelve(m) % 256
  }

  lemma SumTake(m: seq<byte>, k: nat)
    requires k < |m|
    ensures Sum(m[..k + 1]) == Sum(m[..k]) + m[k]
  {
    assert m[..k + 1][..k] == m[..k];
  }

  lemma SumIsOfTwelve(m: seq<byte>)
    requires |m| >= 12
    ensures Sum(m[..12]) == SumOfTwelve(m)
  {
    assert Sum(m[..0]) == 0;
    hide Sum;
    SumTake(m, 0);
    SumTake(m, 1);
    SumTake(m, 2);
    SumTake(m, 3);
    SumTake(m, 4);
    SumTake(m, 5);
    SumTake(m, 6);
    SumTake(m, 7);
    SumTake(m, 8);
    SumTake(m, 9);
    SumTake(m, 10);
    SumTake(m, 11);
  }

  lemma SealedIsSound(m: seq<byte>)
    ensures Sealed(m) <==> Sound(m)
    ensures WellFormed(m) <==> Sound(m) && m[3] == 8
  {
    if |m| == 13 {
      SumIsOfTwelve(m);
    }
    hide Sum, SumOfTwelve;
  }

  /** The thirteen bytes of an encoded request, one by one. */
  lemma EncodedBytes(host: byte, id: byte, data: DataBytes)
    ensures var m := Encode(host, id, data);
            && Sound(m)
            && m == [0xA5, host, id, 0x08,
                     data[0], data[1], data[2], data[3], data[4], data[5], data[6], data[7], m[12]]
  {
    var m := Encode(host, id, data);
    SealedIsSound(m);
    assert m[4] == DataOf(m)[0] && m[5] == DataOf(m)[1] && m[6] == DataOf(m)[2] && m[7] == DataOf(m)[3];
    assert m[8] == DataOf(m)[4] && m[9] == DataOf(m)[5] && m[10] == DataOf(m)[6] && m[11] == DataOf(m)[7];
    hide Sum, Encode, Sound;
  }

  method CalcChksum(bytes: array<byte>) returns (sum: byte)
    requires bytes.Length == MSG_LEN
    ensures sum == Checksum(bytes[..]) == SumOfTwelve(bytes[..]) % 256
  {
    sum := 0;
    for i := 0 to 12
      invariant sum == Sum(bytes[..i]) % 256
    {
      SumSnoc(bytes[..i], bytes[i]);
      assert bytes[..i] + [bytes[i]] == bytes[..i + 1];
      sum := (sum + bytes[i]) % 256;
    }
    assert bytes[..][..12] == bytes[..12];
    SumIsOfTwelve(bytes[..]);
    hide Sum, SumOfTwelve;
  }

  method EncodeFrame(host: byte, id: byte, data: DataBytes) returns (frame: Message)
    ensures frame == Encode(host, id, data)
    ensures Sound(frame) && frame[1] == host && frame[2] == id && frame[3] == 8 && frame[4..12] == data
  {
    var msg := new byte[13](i => 0);
    msg[0], msg[1], msg[2], msg[3] := START_FLAG, host, id, LENGTH_FLAG;
    for i := 0 to DATA_LEN
      invariant msg[0] == START_FLAG && msg[1] == host && msg[2] == id && msg[3] == LENGTH_FLAG
      invariant msg[4..4 + i] == data[..i]
    {
      msg[4 + i] := data[i];
      assert msg[4..4 + i + 1] == msg[4..4 + i] + [data[i]];
    }
    ghost var body: seq<byte> := [START_FLAG, host, id, LENGTH_FLAG] + data;
    assert msg[..12] == msg[..4] + msg[4..12];
    assert msg[..12] == body;
    var sum := CalcChksum(msg);
    assert msg[..][..12] == body;
    msg[12] := sum;
    assert msg[..12] == body;
    frame := msg[..];
    assert frame == body + [sum];
    EncodedBytes(host, id, data);
  }

  method ExtractData(frame: Message) returns (data: DataBytes)
    ensures data == DataOf(frame)
  {
    var out := new byte[8](i => 0);
    for i := 0 to DATA_LEN
      invariant out[..i] == frame[4..4 + i]
    {
      out[i] := frame[4 + i];
      assert out[..i + 1] == out[..i] + [frame[4 + i]];
    }
    data := out[..];
  }
}
