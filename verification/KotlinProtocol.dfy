/**
 The Android codec, core/Protocol.kt and the Sealer of core/Crypto.kt, step by step, each proved to agree with the
 Python codec.  Kotlin Ints and Longs are two's complement, so ids and counters are compared modulo their width.
 */
module KotlinProtocol {
  import opened Bytes
  import opened Crypto
  import opened Protocol

  type Int32 = n: int | -0x8000_0000 <= n < 0x8000_0000
  type Int64 = n: int | -0x8000_0000_0000_0000 <= n < 0x8000_0000_0000_0000

  /** The signed reading of an unsigned field. */
  function Signed32(u: nat): (n: Int32)
    requires u < MASK32
    ensures n % MASK32 == u
  {
    if u < 0x8000_0000 then u else u - MASK32
  }

  function Signed64(u: nat): (n: Int64)
    requires u < MASK64
    ensures n % MASK64 == u
  {
    if u < 0x8000_0000_0000_0000 then u else u - MASK64
  }

  /** `ushr` on the two's complement bit pattern. */
  function UShiftRight(n: nat, bits: nat): nat {
    if bits == 0 then n else UShiftRight(n / 2, bits - 1)
  }

  lemma {:induction false} UShiftAdds(n: nat, a: nat, b: nat)
    ensures UShiftRight(UShiftRight(n, a), b) == UShiftRight(n, a + b)
    decreases a
  {
    if a > 0 { UShiftAdds(n / 2, a - 1, b); }
  }

  lemma {:induction false} UShiftPair(n: nat)
    ensures UShiftRight(n, 2) == n / 4
  {
    assert UShiftRight(n / 2, 1) == UShiftRight(n / 2 / 2, 0);
  }

  lemma {:induction false} UShiftOctet(n: nat)
    ensures UShiftRight(n, 8) == n / 256
  {
    UShiftPair(n);
    UShiftPair(n / 4);
    UShiftAdds(n, 2, 2);
    UShiftPair(n / 16);
    UShiftPair(n / 64);
    UShiftAdds(n / 16, 2, 2);
    UShiftAdds(n, 4, 4);
  }

  /** Octet i of a big-endian field is the value shifted right by the octets after it. */
  lemma {:induction false} BigEndianOctet(n: nat, width: nat, i: nat)
    requires i < width
    ensures BigEndian(n, width)[i] == UShiftRight(n, 8 * (width - 1 - i)) % 256
  {
    if i < width - 1 {
      BigEndianOctet(n / 256, width - 1, i);
      UShiftOctet(n);
      UShiftAdds(n, 8, 8 * (width - 2 - i));
    }
  }

  /** Crypto.kt's nonce loops fill the same 12 octets that to_bytes produces. */
  method Nonce(linkId: Int32, counter: Int64) returns (out: array<Byte>)
    ensures fresh(out)
    ensures Some(out[..]) == Crypto.Nonce(linkId % MASK32, counter)
  {
    out := new Byte[NONCE_LEN];
    var link, count := linkId % MASK32, counter % MASK64;
    for i := 0 to 4
      invariant forall k :: 0 <= k < i ==> out[k] == BigEndian(link, 4)[k]
    {
      BigEndianOctet(link, 4, i);
      out[i] := UShiftRight(link, 8 * (3 - i)) % 256;
    }
    for i := 0 to 8
      invariant forall k :: 0 <= k < 4 ==> out[k] == BigEndian(link, 4)[k]
      invariant forall k :: 0 <= k < i ==> out[4 + k] == BigEndian(count, 8)[k]
    {
      BigEndianOctet(count, 8, i);
      out[4 + i] := UShiftRight(count, 8 * (7 - i)) % 256;
    }
    forall k | 0 <= k < 12 ensures out[k] == (BigEndian(link, 4) + BigEndian(count, 8))[k] {
      if k >= 4 { assert out[4 + (k - 4)] == BigEndian(count, 8)[k - 4]; }
    }
    assert out[..] == BigEndian(link, 4) + BigEndian(count, 8);
  }

  /** java.nio.ByteBuffer in big-endian order: a fixed store and a position that every access advances. */
  class ByteBuffer {
    var data: Bytes
    var position: nat

    ghost predicate Valid()
      reads this
    {
      position <= |data|
    }

    constructor Wrap(data: Bytes)
      ensures Valid() && this.data == data && position == 0
    {
      this.data, position := data, 0;
    }

    constructor Allocate(size: nat)
      ensures Valid() && |data| == size && position == 0
    {
      data, position := seq(size, _ => 0), 0;
    }

    method Put(bs: Bytes)
      requires Valid() && position + |bs| <= |data|
      modifies this
      ensures Valid() && position == old(position) + |bs| && |data| == |old(data)|
      ensures data[..position] == old(data[..position]) + bs
    {
      data := data[..position] + bs + data[position + |bs|..];
      position := position + |bs|;
    }

    method Get(n: nat) returns (bs: Bytes)
      requires Valid() && position + n <= |data|
      modifies `position
      ensures Valid() && position == old(position) + n && bs == data[old(position)..position]
    {
      bs := data[position..position + n];
      position := position + n;
    }

    method PutInt(n: Int32)
      requires Valid() && position + 4 <= |data|
      modifies this
      ensures Valid() && position == old(position) + 4 && |data| == |old(data)|
      ensures data[..position] == old(data[..position]) + BigEndian(n % MASK32, 4)
    {
      this.Put(BigEndian(n % MASK32, 4));
    }

    method PutLong(n: Int64)
      requires Valid() && position + 8 <= |data|
      modifies this
      ensures Valid() && position == old(position) + 8 && |data| == |old(data)|
      ensures data[..position] == old(data[..position]) + BigEndian(n % MASK64, 8)
    {
      this.Put(BigEndian(n % MASK64, 8));
    }

    method GetInt() returns (n: Int32)
      requires Valid() && position + 4 <= |data|
      modifies `position
      ensures Valid() && position == old(position) + 4
      ensures n % MASK32 == FromBigEndian(data[old(position)..position]) < MASK32
    {
      var bs := this.Get(4);
      Widths();
      WordParsed(bs, 4, MASK32);
      n := Signed32(FromBigEndian(bs));
    }

    method GetLong() returns (n: Int64)
      requires Valid() && position + 8 <= |data|
      modifies `position
      ensures Valid() && position == old(position) + 8
      ensures n % MASK64 == FromBigEndian(data[old(position)..position]) < MASK64
    {
      var bs := this.Get(8);
      Widths();
      WordParsed(bs, 8, MASK64);
      n := Signed64(FromBigEndian(bs));
    }
  }

  /** The two header packers produce the same 20 octets. */
  method PackHeader(kind: FrameType, sessionId: Int32, linkId: Int32, counter: Int64) returns (header: Bytes)
    ensures header == Protocol.PackHeader(kind, sessionId, linkId, counter)
  {
    var buf := new ByteBuffer.Allocate(HEADER_LEN);
    buf.Put(MAGIC);
    buf.Put([PROTOCOL_VERSION]);
    buf.Put([TypeCode(kind)]);
    buf.PutInt(sessionId);
    buf.PutInt(linkId);
    buf.PutLong(counter);
    header := buf.data;
    assert header == header[..HEADER_LEN];
    assert MAGIC + [PROTOCOL_VERSION] + [TypeCode(kind)] == MAGIC + [PROTOCOL_VERSION, TypeCode(kind)];
  }

  /** The text to seal: the packet's number, then its octets. */
  method Plaintext(seqNo: Int64, payload: Bytes) returns (plaintext: Bytes)
    ensures plaintext == BigEndian(seqNo % MASK64, SEQ_LEN) + payload
  {
    var buf := new ByteBuffer.Allocate(SEQ_LEN + |payload|);
    buf.PutLong(seqNo);
    buf.Put(payload);
    plaintext := buf.data;
    hide BigEndian;
    assert plaintext == plaintext[..buf.position];
    assert [] + BigEndian(seqNo % MASK64, 8) == BigEndian(seqNo % MASK64, 8);
  }

  lemma MaskedHeader(kind: FrameType, sessionId: int, linkId: int, counter: int)
    ensures Protocol.PackHeader(kind, sessionId, linkId, counter)
         == Protocol.PackHeader(kind, sessionId, linkId % MASK32, counter)
  {
    hide BigEndian;
  }

  method Seal(sealer: Sealer, plaintext: Bytes, linkId: Int32, counter: Int64, aad: Bytes) returns (ciphertext: Bytes)
    ensures Some(ciphertext) == sealer.Seal(plaintext, linkId % MASK32, counter, aad)
  {
    var nonce := Nonce(linkId, counter);
    var body := sealer.Mix(nonce[..], plaintext);
    ciphertext := body + sealer.tag(nonce[..], aad, body);
  }

  /** The two encoders produce the same datagram or refuse the same payload. */
  method Encode(sealer: Sealer, kind: FrameType, sessionId: Int32, linkId: Int32, counter: Int64, seqNo: Int64,
                payload: Bytes)
    returns (r: Result<Bytes>)
    ensures r == EncodeFrame(sealer, kind, sessionId, linkId % MASK32, counter, seqNo, payload)
  {
    if |payload| > MAX_PAYLOAD {
      return Err(PayloadTooLarge);
    }
    var header := PackHeader(kind, sessionId, linkId, counter);
    var plaintext := Plaintext(seqNo, payload);
    var ciphertext := Seal(sealer, plaintext, linkId, counter, header);
    hide Protocol.PackHeader, BigEndian;
    MaskedHeader(kind, sessionId, linkId, counter);
    r := Ok(header + ciphertext);
  }

  datatype KFrame = KFrame(kind: FrameType, sessionId: Int32, linkId: Int32, counter: Int64, seqNo: Int64,
                           payload: Bytes)

  /** The same frame read with signed and with unsigned numbers. */
  predicate SameFrame(k: KFrame, f: Frame) {
    && k.kind == f.kind && k.payload == f.payload
    && k.sessionId % MASK32 == f.sessionId && k.linkId % MASK32 == f.linkId
    && k.counter % MASK64 == f.counter && k.seqNo % MASK64 == f.seqNo
  }

  ghost predicate Agrees(k: Option<KFrame>, f: Option<Frame>) {
    match (k, f)
    case (None, None) => true
    case (Some(k'), Some(f')) => SameFrame(k', f')
    case _ => false
  }

  /** Kotlin's `open`: the engine fails on anything shorter than a tag, and on a wrong tag. */
  method Open(sealer: Sealer, ciphertext: Bytes, linkId: Int32, counter: Int64, aad: Bytes) returns (r: Option<Bytes>)
    ensures r == sealer.Open(ciphertext, linkId % MASK32, counter, aad)
  {
    var nonce := Nonce(linkId, counter);
    if |ciphertext| < TAG_LEN {
      return None;
    }
    var body := ciphertext[..|ciphertext| - TAG_LEN];
    if ciphertext[|ciphertext| - TAG_LEN..] != sealer.tag(nonce[..], aad, body) {
      return None;
    }
    r := Some(sealer.Mix(nonce[..], body));
  }

  lemma SameNonce(s: Sealer, ciphertext: Bytes, linkId: nat, counter: int, aad: Bytes)
    ensures s.Open(ciphertext, linkId, counter, aad) == s.Open(ciphertext, linkId, counter % MASK64, aad)
  {
    assert Crypto.Nonce(linkId, counter) == Crypto.Nonce(linkId, counter % MASK64);
  }

  /** A ciphertext too short for a sequence number and a tag never yields a usable plaintext. */
  lemma OpenTooShort(s: Sealer, ciphertext: Bytes, linkId: nat, counter: nat, aad: Bytes)
    ensures |ciphertext| < SEQ_LEN + TAG_LEN ==>
              var p := s.Open(ciphertext, linkId, counter, aad); p.None? || |p.value| < SEQ_LEN
    ensures |ciphertext| >= SEQ_LEN + TAG_LEN ==>
              var p := s.Open(ciphertext, linkId, counter, aad); p.None? || |p.value| >= SEQ_LEN
  {
  }

  /** The part of `decode` after the header: open, split off the sequence number, build the frame. */
  method Finish(sealer: Sealer, kind: FrameType, sessionId: Int32, linkId: Int32, counter: Int64, header: Bytes,
                ciphertext: Bytes)
    returns (r: Option<KFrame>)
    ensures match sealer.Open(ciphertext, linkId % MASK32, counter, header)
            case None => r == None
            case Some(p) =>
              if |p| < SEQ_LEN then r == None
              else r.Some? && SameFrame(r.value, Frame(kind, sessionId % MASK32, linkId % MASK32, counter % MASK64,
                                                       FromBigEndian(p[..SEQ_LEN]), p[SEQ_LEN..], PROTOCOL_VERSION))
  {
    var plaintext := Open(sealer, ciphertext, linkId, counter, header);
    if plaintext.None? {
      return None;
    }
    if |plaintext.value| < SEQ_LEN {
      return None;
    }
    var wrapped := new ByteBuffer.Wrap(plaintext.value[..SEQ_LEN]);
    var seqNo := wrapped.GetLong();
    assert plaintext.value[..SEQ_LEN][0..SEQ_LEN] == plaintext.value[..SEQ_LEN];
    r := Some(KFrame(kind, sessionId, linkId, counter, seqNo, plaintext.value[SEQ_LEN..]));
  }

  /**
   The two decoders accept the same byte strings and read the same frame, although only the Python one checks
   the ciphertext length before opening.
   */
  method Decode(sealer: Sealer, data: Bytes) returns (r: Option<KFrame>)
    ensures Agrees(r, DecodeFrame(sealer, data))
  {
    if |data| < HEADER_LEN {
      return None;
    }
    var buf := new ByteBuffer.Wrap(data);
    var magic := buf.Get(2);
    if magic != MAGIC {
      return None;
    }
    var version := buf.Get(1);
    if version[0] != PROTOCOL_VERSION {
      return None;
    }
    var code := buf.Get(1);
    var kind := TypeOfCode(code[0]);
    if kind.None? {
      return None;
    }
    var sessionId := buf.GetInt();
    var linkId := buf.GetInt();
    var counter := buf.GetLong();
    ghost var h := Header(kind.value, sessionId % MASK32, linkId % MASK32, counter % MASK64, PROTOCOL_VERSION);
    assert ParseHeader(data) == Ok(h);
    var header, ciphertext := data[..HEADER_LEN], data[HEADER_LEN..];
    r := Finish(sealer, kind.value, sessionId, linkId, counter, header, ciphertext);
    hide ParseHeader, SameFrame;
    OpenTooShort(sealer, ciphertext, h.linkId, h.counter, header);
    SameNonce(sealer, ciphertext, linkId % MASK32, counter, header);
  }
}
