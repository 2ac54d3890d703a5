/** The nonces of turbobond/util/crypto.py, and what it takes for a run of datagrams never to use one twice. */
module Nonces {
  import opened Bytes
  import opened Crypto
  import opened Protocol

  /** A nonce is twelve octets, the link id in the first four and the counter's low eight octets after it. */
  lemma NonceReads(linkId: int, counter: int)
    ensures Nonce(linkId, counter).Some? <==> 0 <= linkId < 0x1_0000_0000
    ensures 0 <= linkId < 0x1_0000_0000 ==>
              var n := Nonce(linkId, counter).value;
              && |n| == 12 && FromBigEndian(n[..4]) == linkId
              && FromBigEndian(n[4..]) == counter % 0x1_0000_0000_0000_0000
  {
    if 0 <= linkId < MASK32 {
      var n := Nonce(linkId, counter).value;
      Widths();
      SmallMod(linkId, MASK32);
      WordRoundTrip(linkId, 4, MASK32);
      WordRoundTrip(counter, 8, MASK64);
      assert n[..4] == BigEndian(linkId, 4) && n[4..] == BigEndian(counter % MASK64, 8);
    }
  }

  /** Two different pairs of link and counter never share a nonce while the counters fit eight octets. */
  lemma NonceInjective(linkId: int, counter: nat, linkId': int, counter': nat)
    requires Nonce(linkId, counter).Some? && counter < MASK64 && counter' < MASK64
    ensures Nonce(linkId, counter) == Nonce(linkId', counter') <==> linkId == linkId' && counter == counter'
  {
    hide Nonce;
    NonceReads(linkId, counter);
    NonceReads(linkId', counter');
    SmallMod(counter, MASK64);
    SmallMod(counter', MASK64);
  }

  // ----- what a datagram's header says it was sealed under

  function LinkOf(d: Bytes): int {
    match ParseHeader(d) case Ok(h) => h.linkId case Err(_) => -1
  }

  function CounterIn(d: Bytes): int {
    match ParseHeader(d) case Ok(h) => h.counter case Err(_) => -1
  }

  function NonceOf(d: Bytes): Option<Bytes> {
    Nonce(LinkOf(d), CounterIn(d))
  }

  lemma EncodedHeader(sealer: Sealer, kind: FrameType, sessionId: int, linkId: int, counter: nat, seqNo: nat,
                      payload: Bytes)
    requires counter < MASK64
    requires EncodeFrame(sealer, kind, sessionId, linkId, counter, seqNo, payload).Ok?
    ensures var d := EncodeFrame(sealer, kind, sessionId, linkId, counter, seqNo, payload).value;
            LinkOf(d) == linkId && CounterIn(d) == counter && 0 <= linkId < MASK32
  {
    var header := PackHeader(kind, sessionId, linkId, counter);
    var ciphertext := sealer.Seal(BigEndian(seqNo % MASK64, SEQ_LEN) + payload, linkId, counter, header).value;
    ParsePackedHeader(kind, sessionId, linkId, counter, ciphertext);
    SmallMod(linkId, MASK32);
    SmallMod(counter, MASK64);
    hide PackHeader, ParseHeader;
  }

  /** The header names the link and the counter the datagram was sealed for. */
  lemma HeaderIn(sealer: Sealer, d: Bytes)
    ensures DecodeFrame(sealer, d).Some? ==>
              && LinkOf(d) == DecodeFrame(sealer, d).value.linkId
              && CounterIn(d) == DecodeFrame(sealer, d).value.counter
  {
    hide ParseHeader;
  }

  // ----- counters that only rise

  /** Each datagram's counter is new for its link, between `low` and `high`, and later ones of a link are larger. */
  ghost predicate Rising(low: int -> nat, high: int -> nat, ds: seq<Bytes>) {
    && (forall l :: low(l) <= high(l))
    && (forall i :: 0 <= i < |ds| ==>
          0 <= LinkOf(ds[i]) < MASK32 && low(LinkOf(ds[i])) < CounterIn(ds[i]) <= high(LinkOf(ds[i])))
    && (forall i, j :: 0 <= i < j < |ds| && LinkOf(ds[i]) == LinkOf(ds[j]) ==> CounterIn(ds[i]) < CounterIn(ds[j]))
  }

  lemma RisingAppend(low: int -> nat, mid: int -> nat, high: int -> nat, ds: seq<Bytes>, more: seq<Bytes>)
    requires Rising(low, mid, ds) && Rising(mid, high, more)
    ensures Rising(low, high, ds + more)
  {
    hide LinkOf, CounterIn;
    var all := ds + more;
    forall l ensures low(l) <= high(l) { assert low(l) <= mid(l) <= high(l); }
    forall i | 0 <= i < |all|
      ensures 0 <= LinkOf(all[i]) < MASK32 && low(LinkOf(all[i])) < CounterIn(all[i]) <= high(LinkOf(all[i]))
    {
      assert all[i] == if i < |ds| then ds[i] else more[i - |ds|];
      var l := LinkOf(all[i]);
      assert low(l) <= mid(l) <= high(l);
    }
    forall i, j | 0 <= i < j < |all| && LinkOf(all[i]) == LinkOf(all[j]) ensures CounterIn(all[i]) < CounterIn(all[j]) {
      if i >= |ds| {
        assert all[i] == more[i - |ds|] && all[j] == more[j - |ds|];
      } else if j >= |ds| {
        assert all[j] == more[j - |ds|];
      }
    }
  }

  /** No two datagrams of a run of rising counters that fit their field share a nonce. */
  lemma RisingNonces(low: int -> nat, high: int -> nat, ds: seq<Bytes>, i: nat, j: nat)
    requires Rising(low, high, ds) && i < j < |ds|
    requires forall l :: high(l) < MASK64
    ensures NonceOf(ds[i]) != NonceOf(ds[j])
  {
    hide LinkOf, CounterIn, Nonce;
    NonceReads(LinkOf(ds[i]), CounterIn(ds[i]));
    assert high(LinkOf(ds[i])) < MASK64 && high(LinkOf(ds[j])) < MASK64;
    NonceInjective(LinkOf(ds[i]), CounterIn(ds[i]), LinkOf(ds[j]), CounterIn(ds[j]));
  }

  /** Link and counter tell each datagram of such a run from every other. */
  lemma RisingUnique(low: int -> nat, high: int -> nat, ds: seq<Bytes>, d: Bytes, e: Bytes)
    requires Rising(low, high, ds) && d in ds && e in ds
    ensures CounterIn(d) != 0
    ensures LinkOf(d) == LinkOf(e) && CounterIn(d) == CounterIn(e) ==> d == e
  {
    hide LinkOf, CounterIn;
    var m :| 0 <= m < |ds| && ds[m] == d;
    var n :| 0 <= n < |ds| && ds[n] == e;
  }
}
