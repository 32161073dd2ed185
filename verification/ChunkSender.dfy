/** The chunk writer of NetConnection.sendBytes, as a function of the sender's header cache. */
module ChunkSender {
  import opened Bytes
  import opened ChunkParser

  const DATA: byte := 0x12
  const DATA_AMF3: byte := 0x0F
  const SHARED_OBJECT: byte := 0x13
  const SHARED_OBJECT_AMF3: byte := 0x10
  const COMMAND: byte := 0x14
  const COMMAND_AMF3: byte := 0x11
  const PROTOCOL_CONTROL := 2

  datatype Sender = Sender(headersOut: map<nat, Header>, nearChunkSize: int, amf3: bool)

  /** A message as handed to sendBytes. */
  datatype Packet = Packet(csid: nat, typeID: byte, timestamp: nat, streamID: nat, payload: seq<byte>)

  function WireType(amf3: bool, typ: byte): byte {
    if !amf3 then typ
    else if typ == DATA then DATA_AMF3
    else if typ == SHARED_OBJECT then SHARED_OBJECT_AMF3
    else if typ == COMMAND then COMMAND_AMF3
    else typ
  }

  function HeaderOf(tx: Sender, p: Packet): Header {
    Header(WireType(tx.amf3, p.typeID), |p.payload| % TWO32, p.timestamp, p.streamID)
  }

  /** The chunk format: how much of the header the cached one makes redundant. */
  function Compression(tx: Sender, p: Packet): (f: byte)
    ensures f <= 3
  {
    if p.csid !in tx.headersOut then 0
    else
      var last := tx.headersOut[p.csid];
      if p.streamID != last.streamID then 0
      else if WireType(tx.amf3, p.typeID) != last.typeID || |p.payload| != last.length then 1
      else if p.timestamp != last.timestamp then 2
      else 3
  }

  /** The basic header; None when the chunk stream id is out of range. */
  function Basic(f: byte, c: nat): Option<seq<byte>>
    requires f <= 3
  {
    if c < 64 then Some([f * 64 + c])
    else if c < 320 then Some([f * 64, c - 64])
    else if c < 65600 then Some([f * 64 + 1, (c - 64) % TWO8, (c - 64) / TWO8])
    else None
  }

  /** The message header for format f, with the extended timestamp on every chunk. */
  function MessageHeader(f: byte, h: Header): seq<byte> {
    (if f < 3 then BE3(if h.timestamp < EXTENDED then h.timestamp else EXTENDED) else [])
    + (if f < 2 then BE3(h.length) + [h.typeID] else [])
    + (if f == 0 then LE4(h.streamID) else [])
    + ExtendedField(h)
  }

  function ExtendedField(h: Header): seq<byte> {
    if h.timestamp >= EXTENDED then BE4(h.timestamp) else []
  }

  /** All chunks of a payload; the first one has format f. */
  function Chunks(f: byte, c: nat, h: Header, data: seq<byte>, chunk: nat): seq<byte>
    requires f <= 3 && c < 65600 && chunk > 0
    decreases |data|
  {
    if data == [] then []
    else
      var j := Min(|data|, chunk);
      Basic(f, c).value + MessageHeader(f, h) + data[..j] + Chunks(3, c, h, data[j..], chunk)
  }

  /** What sendBytes writes; nothing for an empty payload or an id out of range. */
  function Written(tx: Sender, p: Packet): seq<byte>
    requires tx.nearChunkSize > 0
  {
    if p.csid >= 65600 then []
    else Chunks(Compression(tx, p), p.csid, HeaderOf(tx, p), p.payload, tx.nearChunkSize)
  }

  /** The cache is updated before anything is written, whatever happens then. */
  function AfterSend(tx: Sender, p: Packet): Sender {
    tx.(headersOut := tx.headersOut[p.csid := HeaderOf(tx, p)])
  }

  predicate IsInt32(n: int) {
    -0x8000_0000 <= n < 0x8000_0000
  }

  /** The message SendAckSequenceNumber sends: the octets received so far. */
  function AckPacket(bytesIn: nat): Packet {
    Packet(PROTOCOL_CONTROL, ACK, 0, 0, BE4(bytesIn))
  }

  /** The message SetChunkSize sends: an int32 in two's complement. */
  function ChunkSizePacket(n: int): Packet {
    Packet(PROTOCOL_CONTROL, SET_CHUNK_SIZE, 0, 0, BE4(n % TWO32))
  }
}
