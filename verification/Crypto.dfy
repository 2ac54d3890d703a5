/**
 turbobond/util/crypto.py, the Sealer only.  ChaCha20-Poly1305 (section 2.8 of RFC 8439) is an arbitrary
 keystream of the nonce, xored octet by octet, followed by an arbitrary 16-octet tag of nonce, additional
 data and ciphertext.  Nothing else about the cipher is assumed.
 */
module Crypto {
  import opened Bits
  import opened Bytes

  const TAG_LEN: nat := 16
  const NONCE_LEN: nat := 12

  type Tag = t: Bytes | |t| == TAG_LEN witness seq(16, _ => 0)

  function XorByte(a: Byte, b: Byte): Byte {
    assert Pow2(8) == 256;
    XorFits(a, b, 8);
    Xor(a, b)
  }

  /** 4-octet link id then 8-octet counter; None is the OverflowError of an id that needs more than 4 octets. */
  function Nonce(linkId: int, counter: int): Option<Bytes> {
    if 0 <= linkId < MASK32 then Some(BigEndian(linkId, 4) + BigEndian(counter % MASK64, 8)) else None
  }

  datatype Sealer = Sealer(keystream: (Bytes, nat) -> Byte, tag: (Bytes, Bytes, Bytes) -> Tag)
  {
    function Mix(nonce: Bytes, text: Bytes): (mixed: Bytes)
      ensures |mixed| == |text|
    {
      seq<Byte>(|text|, i requires 0 <= i < |text| => XorByte(text[i], keystream(nonce, i)))
    }

    function Seal(plaintext: Bytes, linkId: int, counter: int, aad: Bytes): Option<Bytes> {
      match Nonce(linkId, counter)
      case None => None
      case Some(nonce) =>
        var body := Mix(nonce, plaintext);
        Some(body + tag(nonce, aad, body))
    }

    function Open(ciphertext: Bytes, linkId: int, counter: int, aad: Bytes): Option<Bytes> {
      match Nonce(linkId, counter)
      case None => None
      case Some(nonce) =>
        if |ciphertext| < TAG_LEN then None
        else
          var body := ciphertext[..|ciphertext| - TAG_LEN];
          if ciphertext[|ciphertext| - TAG_LEN..] != tag(nonce, aad, body) then None
          else Some(Mix(nonce, body))
    }

    lemma MixTwice(nonce: Bytes, text: Bytes)
      ensures Mix(nonce, Mix(nonce, text)) == text
    {
      forall i | 0 <= i < |text| ensures Mix(nonce, Mix(nonce, text))[i] == text[i] {
        XorTwice(text[i], keystream(nonce, i));
      }
    }

    /** Whatever was sealed opens to the same plaintext under the same link, counter and header. */
    lemma OpenAfterSeal(plaintext: Bytes, linkId: int, counter: int, aad: Bytes)
      requires 0 <= linkId < MASK32
      ensures var sealed := Seal(plaintext, linkId, counter, aad);
              && sealed.Some?
              && |sealed.value| == |plaintext| + TAG_LEN
              && Open(sealed.value, linkId, counter, aad) == Some(plaintext)
    {
      var nonce := Nonce(linkId, counter).value;
      var body := Mix(nonce, plaintext);
      var sealed := body + tag(nonce, aad, body);
      assert sealed[..|sealed| - TAG_LEN] == body;
      MixTwice(nonce, plaintext);
    }

    /**
     The tag covers header, link and counter: what was sealed under one set opens under another only if the tag function
     gives the same tag for both.
     */
    lemma OpensOnlyUnderItsTag(plaintext: Bytes, linkId: int, counter: int, aad: Bytes, linkId': int, counter': int,
                               aad': Bytes)
      requires 0 <= linkId < MASK32
      ensures var sealed := Seal(plaintext, linkId, counter, aad).value;
              var body := Mix(Nonce(linkId, counter).value, plaintext);
              Open(sealed, linkId', counter', aad').Some? <==>
                && 0 <= linkId' < MASK32
                && tag(Nonce(linkId', counter').value, aad', body) == tag(Nonce(linkId, counter).value, aad, body)
    {
      var sealed, body := Seal(plaintext, linkId, counter, aad).value, Mix(Nonce(linkId, counter).value, plaintext);
      assert sealed[..|sealed| - TAG_LEN] == body;
      assert sealed[|sealed| - TAG_LEN..] == tag(Nonce(linkId, counter).value, aad, body);
    }

    /** Only one ciphertext opens to a given plaintext: the one Seal produces. */
    lemma SealAfterOpen(ciphertext: Bytes, linkId: int, counter: int, aad: Bytes)
      requires Open(ciphertext, linkId, counter, aad).Some?
      ensures var plaintext := Open(ciphertext, linkId, counter, aad).value;
              && |ciphertext| == |plaintext| + TAG_LEN
              && Seal(plaintext, linkId, counter, aad) == Some(ciphertext)
    {
      var nonce := Nonce(linkId, counter).value;
      var body := ciphertext[..|ciphertext| - TAG_LEN];
      MixTwice(nonce, body);
      assert body + tag(nonce, aad, body) == ciphertext;
    }
  }
}
