/** The datagram codec of turbobond/bond/protocol.py. */
module Protocol {
  import opened Bytes
  import opened Crypto

  const MAGIC: Bytes := [0x54, 0x42]
  const PROTOCOL_VERSION: Byte := 1
  const HEADER_LEN: nat := 20
  const SEQ_LEN: nat := 8
  const MAX_PAYLOAD: nat := 1600
  const MAX_DATAGRAM: nat := HEADER_LEN + SEQ_LEN + MAX_PAYLOAD + TAG_LEN

  datatype FrameType = DATA | KEEPALIVE | HANDSHAKE | HANDSHAKE_ACK | LINK_STATS | CLOSE

  function TypeCode(t: FrameType): Byte {
    match t
    case DATA => 1
    case KEEPALIVE => 2
    case HANDSHAKE => 3
    case HANDSHAKE_ACK => 4
    case LINK_STATS => 5
    case CLOSE => 6
  }

  function TypeOfCode(code: Byte): Option<FrameType> {
    match code
    case 1 => Some(DATA)
    case 2 => Some(KEEPALIVE)
    case 3 => Some(HANDSHAKE)
    case 4 => Some(HANDSHAKE_ACK)
    case 5 => Some(LINK_STATS)
    case 6 => Some(CLOSE)
    case _ => None
  }

  datatype Frame = Frame(kind: FrameType, sessionId: nat, linkId: nat, counter: nat, seqNo: nat, payload: Bytes,
                         version: Byte)

  datatype Header = Header(kind: FrameType, sessionId: nat, linkId: nat, counter: nat, version: Byte)

  datatype Error = TooShort | BadMagic | BadVersion | UnknownType | PayloadTooLarge | LinkIdOverflow

  datatype Result<+T> = Ok(value: T) | Err(error: Error)

  /** Session id, link id and counter are masked to their field widths, as the struct.pack call does. */
  function PackHeader(kind: FrameType, sessionId: int, linkId: int, counter: int): (h: Bytes)
    ensures |h| == HEADER_LEN
  {
    MAGIC + [PROTOCOL_VERSION, TypeCode(kind)] + BigEndian(sessionId % MASK32, 4) + BigEndian(linkId % MASK32, 4)
    + BigEndian(counter % MASK64, 8)
  }

  function ParseHeader(data: Bytes): Result<Header> {
    if |data| < HEADER_LEN then Err(TooShort)
    else if data[..2] != MAGIC then Err(BadMagic)
    else if data[2] != PROTOCOL_VERSION then Err(BadVersion)
    else
      match TypeOfCode(data[3])
      case None => Err(UnknownType)
      case Some(kind) =>
        Ok(Header(kind, FromBigEndian(data[4..8]), FromBigEndian(data[8..12]), FromBigEndian(data[12..20]), data[2]))
  }

  function EncodeFrame(sealer: Sealer, kind: FrameType, sessionId: int, linkId: int, counter: int, seqNo: int,
                       payload: Bytes): (r: Result<Bytes>)
    ensures r.Ok? <==> |payload| <= MAX_PAYLOAD && 0 <= linkId < MASK32
  {
    if |payload| > MAX_PAYLOAD then Err(PayloadTooLarge)
    else
      var header := PackHeader(kind, sessionId, linkId, counter);
      match sealer.Seal(BigEndian(seqNo % MASK64, SEQ_LEN) + payload, linkId, counter, header)
      case None => Err(LinkIdOverflow)
      case Some(ciphertext) => Ok(header + ciphertext)
  }

  function DecodeFrame(sealer: Sealer, data: Bytes): Option<Frame> {
    match ParseHeader(data)
    case Err(_) => None
    case Ok(h) =>
      var header, ciphertext := data[..HEADER_LEN], data[HEADER_LEN..];
      if |ciphertext| < SEQ_LEN + TAG_LEN then None
      else
        match sealer.Open(ciphertext, h.linkId, h.counter, header)
        case None => None
        case Some(plaintext) =>
          if |plaintext| < SEQ_LEN then None
          else Some(Frame(h.kind, h.sessionId, h.linkId, h.counter, FromBigEndian(plaintext[..SEQ_LEN]),
                          plaintext[SEQ_LEN..], h.version))
  }

  // ----- what the codec promises

  /** Parsing a packed header gives back the type and the three masked numbers, whatever follows it. */
  lemma ParsePackedHeader(kind: FrameType, sessionId: int, linkId: int, counter: int, rest: Bytes)
    ensures ParseHeader(PackHeader(kind, sessionId, linkId, counter) + rest)
         == Ok(Header(kind, sessionId % MASK32, linkId % MASK32, counter % MASK64, PROTOCOL_VERSION))
  {
    var h := PackHeader(kind, sessionId, linkId, counter);
    var data := h + rest;
    assert data[..2] == MAGIC;
    assert data[4..8] == BigEndian(sessionId % MASK32, 4);
    assert data[8..12] == BigEndian(linkId % MASK32, 4);
    assert data[12..20] == BigEndian(counter % MASK64, 8);
    Widths();
    WordRoundTrip(sessionId, 4, MASK32);
    WordRoundTrip(linkId, 4, MASK32);
    WordRoundTrip(counter, 8, MASK64);
  }

  /** A header that parses is the packing of its own fields, and the fields fit their widths. */
  lemma PackParsedHeader(data: Bytes)
    requires ParseHeader(data).Ok?
    ensures var h := ParseHeader(data).value;
            && h.sessionId < MASK32 && h.linkId < MASK32 && h.counter < MASK64
            && PackHeader(h.kind, h.sessionId, h.linkId, h.counter) == data[..HEADER_LEN]
  {
    var h := ParseHeader(data).value;
    Widths();
    WordParsed(data[4..8], 4, MASK32);
    WordParsed(data[8..12], 4, MASK32);
    WordParsed(data[12..20], 8, MASK64);
    assert TypeCode(h.kind) == data[3];
    assert data[..HEADER_LEN] == data[..2] + [data[2], data[3]] + data[4..8] + data[8..12] + data[12..20];
  }

  lemma NonceOfMasked(linkId: int, counter: int)
    requires 0 <= linkId < MASK32
    ensures Nonce(linkId, counter % MASK64) == Nonce(linkId, counter)
  {
  }

  /** What decoding a datagram comes to, once its header parses and its body opens. */
  lemma DecodeParts(s: Sealer, h: Header, header: Bytes, ciphertext: Bytes, plaintext: Bytes)
    requires |header| == HEADER_LEN && |ciphertext| >= SEQ_LEN + TAG_LEN && |plaintext| >= SEQ_LEN
    requires ParseHeader(header + ciphertext) == Ok(h)
    requires s.Open(ciphertext, h.linkId, h.counter, header) == Some(plaintext)
    ensures DecodeFrame(s, header + ciphertext)
         == Some(Frame(h.kind, h.sessionId, h.linkId, h.counter, FromBigEndian(plaintext[..SEQ_LEN]),
                       plaintext[SEQ_LEN..], h.version))
  {
    hide ParseHeader, FromBigEndian, Nonce;
    var d := header + ciphertext;
    assert d[..HEADER_LEN] == header && d[HEADER_LEN..] == ciphertext;
  }

  /** Decoding what was encoded: every number comes back reduced to its field width, the payload untouched. */
  lemma DecodeAfterEncode(s: Sealer, kind: FrameType, sessionId: int, linkId: int, counter: int, seqNo: int,
                          payload: Bytes)
    requires |payload| <= MAX_PAYLOAD && 0 <= linkId < MASK32
    ensures var d := EncodeFrame(s, kind, sessionId, linkId, counter, seqNo, payload);
            && d.Ok? && |d.value| == HEADER_LEN + SEQ_LEN + |payload| + TAG_LEN <= MAX_DATAGRAM
            && DecodeFrame(s, d.value) == Some(Frame(kind, sessionId % MASK32, linkId, counter % MASK64,
                                                     seqNo % MASK64, payload, PROTOCOL_VERSION))
  {
    hide ParseHeader, PackHeader, BigEndian, FromBigEndian, Nonce, DecodeFrame;
    var header := PackHeader(kind, sessionId, linkId, counter);
    var plaintext := BigEndian(seqNo % MASK64, SEQ_LEN) + payload;
    s.OpenAfterSeal(plaintext, linkId, counter, header);
    var ciphertext := s.Seal(plaintext, linkId, counter, header).value;
    ParsePackedHeader(kind, sessionId, linkId, counter, ciphertext);
    NonceOfMasked(linkId, counter);
    Widths();
    WordRoundTrip(seqNo, 8, MASK64);
    SmallMod(linkId, MASK32);
    assert plaintext[..SEQ_LEN] == BigEndian(seqNo % MASK64, SEQ_LEN) && plaintext[SEQ_LEN..] == payload;
    DecodeParts(s, Header(kind, sessionId % MASK32, linkId, counter % MASK64, PROTOCOL_VERSION), header, ciphertext,
                plaintext);
  }

  /** The other direction: a datagram that decodes is, byte for byte, the encoding of what it decodes to. */
  lemma EncodeAfterDecode(s: Sealer, data: Bytes)
    requires DecodeFrame(s, data).Some?
    requires |DecodeFrame(s, data).value.payload| <= MAX_PAYLOAD
    ensures var f := DecodeFrame(s, data).value;
            && f.sessionId < MASK32 && f.linkId < MASK32 && f.counter < MASK64 && f.seqNo < MASK64
            && f.version == PROTOCOL_VERSION
            && EncodeFrame(s, f.kind, f.sessionId, f.linkId, f.counter, f.seqNo, f.payload) == Ok(data)
  {
    PackParsedHeader(data);
    var h := ParseHeader(data).value;
    var header, ciphertext := data[..HEADER_LEN], data[HEADER_LEN..];
    s.SealAfterOpen(ciphertext, h.linkId, h.counter, header);
    var plaintext := s.Open(ciphertext, h.linkId, h.counter, header).value;
    Widths();
    WordParsed(plaintext[..SEQ_LEN], 8, MASK64);
    assert plaintext == plaintext[..SEQ_LEN] + plaintext[SEQ_LEN..];
    assert header + ciphertext == data;
  }

  /** The receivers' size gate: a datagram decodes to a legal payload exactly when it is no longer than MAX_DATAGRAM. */
  lemma SizeGate(s: Sealer, data: Bytes)
    requires DecodeFrame(s, data).Some?
    ensures |data| == HEADER_LEN + SEQ_LEN + |DecodeFrame(s, data).value.payload| + TAG_LEN
    ensures |data| <= MAX_DATAGRAM <==> |DecodeFrame(s, data).value.payload| <= MAX_PAYLOAD
  {
    var h := ParseHeader(data).value;
    s.SealAfterOpen(data[HEADER_LEN..], h.linkId, h.counter, data[..HEADER_LEN]);
  }

  predicate InRange(f: Frame) {
    && f.sessionId < MASK32 && f.linkId < MASK32 && f.counter < MASK64 && f.seqNo < MASK64
    && |f.payload| <= MAX_PAYLOAD && f.version == PROTOCOL_VERSION
  }

  function Encode(s: Sealer, f: Frame): Result<Bytes> {
    EncodeFrame(s, f.kind, f.sessionId, f.linkId, f.counter, f.seqNo, f.payload)
  }

  /** In-range frames survive the wire exactly. */
  lemma FrameRoundTrip(s: Sealer, f: Frame)
    requires InRange(f)
    ensures Encode(s, f).Ok? && DecodeFrame(s, Encode(s, f).value) == Some(f)
  {
    hide DecodeFrame, EncodeFrame;
    DecodeAfterEncode(s, f.kind, f.sessionId, f.linkId, f.counter, f.seqNo, f.payload);
    SmallMod(f.sessionId, MASK32);
    SmallMod(f.counter, MASK64);
    SmallMod(f.seqNo, MASK64);
  }

  /** Two different in-range frames never share a datagram. */
  lemma EncodeInjective(s: Sealer, f: Frame, g: Frame)
    requires InRange(f) && InRange(g) && Encode(s, f) == Encode(s, g)
    ensures f == g
  {
    FrameRoundTrip(s, f);
    FrameRoundTrip(s, g);
  }

  // ----- the layout on the wire

  /**
   A header, octet by octet: "TB", version 1, the type's code, then session, link and counter, most significant first.
   */
  lemma HeaderLayout(kind: FrameType, sessionId: int, linkId: int, counter: int)
    ensures var h := PackHeader(kind, sessionId, linkId, counter);
            && |h| == 20 && h[..3] == [0x54, 0x42, 1]
            && h[3] == (match kind
                        case DATA => 1 case KEEPALIVE => 2 case HANDSHAKE => 3
                        case HANDSHAKE_ACK => 4 case LINK_STATS => 5 case CLOSE => 6)
            && FromBigEndian(h[4..8]) == sessionId % 0x1_0000_0000
            && FromBigEndian(h[8..12]) == linkId % 0x1_0000_0000
            && FromBigEndian(h[12..20]) == counter % 0x1_0000_0000_0000_0000
  {
    hide BigEndian, FromBigEndian;
    var h := PackHeader(kind, sessionId, linkId, counter);
    assert |MAGIC| == 2;
    assert h[..3] == MAGIC + [PROTOCOL_VERSION];
    assert h[4..8] == BigEndian(sessionId % MASK32, 4);
    assert h[8..12] == BigEndian(linkId % MASK32, 4);
    assert h[12..20] == BigEndian(counter % MASK64, 8);
    Widths();
    WordRoundTrip(sessionId, 4, MASK32);
    WordRoundTrip(linkId, 4, MASK32);
    WordRoundTrip(counter, 8, MASK64);
  }

  /**
   A datagram is its header in the clear and, sealed under it, the packet's number in eight octets before the packet.
   */
  lemma FrameLayout(s: Sealer, kind: FrameType, sessionId: int, linkId: int, counter: int, seqNo: int, payload: Bytes)
    requires |payload| <= 1600 && 0 <= linkId < 0x1_0000_0000
    ensures var d := EncodeFrame(s, kind, sessionId, linkId, counter, seqNo, payload);
            && d.Ok? && |d.value| == 20 + 8 + |payload| + 16
            && d.value[..20] == PackHeader(kind, sessionId, linkId, counter)
            && var sealed := s.Open(d.value[20..], linkId, counter, d.value[..20]);
               sealed.Some? && |sealed.value| == 8 + |payload|
               && FromBigEndian(sealed.value[..8]) == seqNo % 0x1_0000_0000_0000_0000 && sealed.value[8..] == payload
  {
    hide BigEndian, FromBigEndian, PackHeader, Nonce;
    var header, plaintext := PackHeader(kind, sessionId, linkId, counter), BigEndian(seqNo % MASK64, 8) + payload;
    s.OpenAfterSeal(plaintext, linkId, counter, header);
    var d := header + s.Seal(plaintext, linkId, counter, header).value;
    assert d[..20] == header && d[20..] == s.Seal(plaintext, linkId, counter, header).value;
    Widths();
    WordRoundTrip(seqNo, 8, MASK64);
    assert plaintext[..8] == BigEndian(seqNo % MASK64, 8) && plaintext[8..] == payload;
  }

  /**
   What is refused: a datagram whose header does not begin with "TB" and version 1, or names no known type, or that is
   too short for a number and a tag.
   */
  lemma RefusedDatagrams(s: Sealer, data: Bytes)
    ensures |data| < 20 + 8 + 16 ==> DecodeFrame(s, data) == None
    ensures |data| >= 20 && !(data[..3] == [0x54, 0x42, 1] && 1 <= data[3] <= 6) ==> DecodeFrame(s, data) == None
  {
    if DecodeFrame(s, data).Some? {
      assert data[..2] == MAGIC;
      assert data[..3] == data[..2] + [data[2]];
    }
  }
}
