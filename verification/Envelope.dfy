/** `crypto/packer.go` and `crypto/cipher.go`: the authcrypt envelope over abstract boxes, an abstract AEAD
    and abstract JSON and base58 codecs. */
module Envelope {
  import opened Base64

  type bytes = seq<byte>

  const NONCE_BYTES := 24
  const AEAD_NONCE_BYTES := 12
  const AEAD_KEY_BYTES := 32

  datatype Recipient = Recipient(encryptedKey: string, kid: string, iv: string, sender: string)

  datatype Payload = Payload(enc: string, typ: string, alg: string, recipients: seq<Recipient>)

  datatype AuthCryptMsg = AuthCryptMsg(protectedVal: string, iv: string, ciphertext: string, tag: string)

  /** The primitives.  `pub` gives the public half of a private key; sealing takes its own randomness. */
  datatype Suite = Suite(
    pub: bytes -> bytes,
    box: (bytes, bytes, bytes, bytes) -> bytes,
    boxOpen: (bytes, bytes, bytes, bytes) -> bytes,
    seal: (bytes, bytes, bytes) -> bytes,
    sealOpen: (bytes, bytes, bytes) -> bytes,
    aead: (bytes, bytes, bytes, bytes) -> (bytes, bytes),
    aeadOpen: (bytes, bytes, bytes, bytes, bytes) -> Option<bytes>,
    marshalPayload: Payload -> bytes,
    unmarshalPayload: bytes -> Option<Payload>,
    marshalMsg: AuthCryptMsg -> bytes,
    unmarshalMsg: bytes -> Option<AuthCryptMsg>,
    base58: bytes -> string,
    base58Decode: string -> bytes)

  /** What is assumed of the primitives: everything that was closed for a key, a nonce and associated data
      opens with the same ones, and the codecs decode what they encoded. */
  ghost predicate Lawful(s: Suite) {
    (forall m, n, a, b :: s.boxOpen(s.box(m, n, s.pub(b), a), n, s.pub(a), b) == m) &&
    (forall m, r, b :: s.sealOpen(s.seal(m, s.pub(b), r), s.pub(b), b) == m) &&
    (forall m, ad, iv, key :: |iv| == AEAD_NONCE_BYTES && |key| == AEAD_KEY_BYTES ==>
       s.aeadOpen(s.aead(m, ad, iv, key).0, s.aead(m, ad, iv, key).1, ad, iv, key) == Some(m)) &&
    (forall p :: s.unmarshalPayload(s.marshalPayload(p)) == Some(p)) &&
    (forall m :: s.unmarshalMsg(s.marshalMsg(m)) == Some(m)) &&
    (forall b :: s.base58Decode(s.base58(b)) == b)
  }

  // ----------------------------------------------------------------------------------------- cipher

  function Zeros(n: nat): bytes {
    if n == 0 then [] else Zeros(n - 1) + [48]
  }

  lemma {:induction false} ZerosAre(n: int)
    ensures n >= 0 ==> |Zeros(n)| == n && forall k :: 0 <= k < n ==> Zeros(n)[k] == 48
  {
    if n > 0 {
      ZerosAre(n - 1);
    }
  }

  /** Twenty-four bytes: shorter nonces are filled with the character `0`, longer ones are cut. */
  function NormalNonce(nonce: bytes): (n: bytes)
    ensures |n| == 24
    ensures forall k :: 0 <= k < 24 ==> n[k] == if k < |nonce| then nonce[k] else 48
  {
    ZerosAre(NONCE_BYTES - |nonce|);
    if |nonce| < NONCE_BYTES then nonce + Zeros(NONCE_BYTES - |nonce|) else nonce[..NONCE_BYTES]
  }

  method ModifyNonce(nonce: bytes) returns (n: bytes)
    ensures n == NormalNonce(nonce) && |n| == 24
    ensures forall k :: 0 <= k < 24 ==> n[k] == if k < |nonce| then nonce[k] else 48
  {
    n := nonce;
    if |n| < NONCE_BYTES {
      while |n| != NONCE_BYTES
        invariant |nonce| <= |n| <= NONCE_BYTES
        invariant n == nonce + Zeros(|n| - |nonce|)
        decreases NONCE_BYTES - |n|
      {
        ghost var before := n;
        n := n + [48];
        assert n == nonce + (Zeros(|before| - |nonce|) + [48]);
      }
    } else if |n| > NONCE_BYTES {
      n := n[..NONCE_BYTES];
    }
  }

  /** `copy` into a zeroed array of `size` bytes: shorter sources leave zeros behind, longer ones are cut. */
  function Fixed(size: nat, src: bytes): (f: bytes)
    ensures |f| == size
    ensures forall k :: 0 <= k < size ==> f[k] == if k < |src| then src[k] else 0
  {
    if |src| >= size then src[..size] else src + seq(size - |src|, _ => 0)
  }

  method CopyFixed(size: nat, src: bytes) returns (f: bytes)
    ensures f == Fixed(size, src) && |f| == size
    ensures forall k :: 0 <= k < size ==> f[k] == if k < |src| then src[k] else 0
  {
    var converted := new byte[size](_ => 0);
    var i := 0;
    while i < size && i < |src|
      invariant 0 <= i <= size && i <= |src|
      invariant forall k :: 0 <= k < size ==> converted[k] == if k < i then src[k] else 0
    {
      converted[i] := src[i];
      i := i + 1;
    }
    f := converted[..];
  }

  function Box(s: Suite, payload: bytes, nonce: bytes, peerPub: bytes, mySec: bytes): bytes {
    s.box(payload, NormalNonce(nonce), peerPub, mySec)
  }

  function BoxOpen(s: Suite, cipher: bytes, nonce: bytes, peerPub: bytes, mySec: bytes): bytes {
    s.boxOpen(cipher, NormalNonce(nonce), peerPub, mySec)
  }

  function EncryptDetached(s: Suite, msg: bytes, protectedVal: bytes, nonce: bytes, key: bytes): (bytes, bytes) {
    s.aead(msg, protectedVal, Fixed(AEAD_NONCE_BYTES, nonce), Fixed(AEAD_KEY_BYTES, key))
  }

  function DecryptDetached(s: Suite, cipher: bytes, mac: bytes, protectedVal: bytes, nonce: bytes,
                           key: bytes): Option<bytes> {
    s.aeadOpen(cipher, mac, protectedVal, Fixed(AEAD_NONCE_BYTES, nonce), Fixed(AEAD_KEY_BYTES, key))
  }

  // ----------------------------------------------------------------------------------------- packer

  /** The values `Pack` draws: the decimal texts of two random numbers, the content key, the sealing randomness. */
  datatype Random = Random(cekIv: bytes, cek: bytes, iv: bytes, seal: bytes)

  function PayloadOf(s: Suite, recPub: bytes, sendPub: bytes, sendPrv: bytes, rnd: Random): Payload {
    Payload("xchacha20poly1305_ietf", "JWM/1.0", "Authcrypt",
            [Recipient(Encode(Box(s, rnd.cek, rnd.cekIv, recPub, sendPrv)),
                       s.base58(recPub),
                       Encode(rnd.cekIv),
                       Encode(s.seal(sendPub, recPub, rnd.seal)))])
  }

  function Pack(s: Suite, input: bytes, recPub: bytes, sendPub: bytes, sendPrv: bytes, rnd: Random): AuthCryptMsg {
    var encPayload := s.marshalPayload(PayloadOf(s, recPub, sendPub, sendPrv, rnd));
    var sealed := EncryptDetached(s, input, encPayload, rnd.iv, rnd.cek);
    AuthCryptMsg(Encode(encPayload), Encode(rnd.iv), Encode(sealed.0), Encode(sealed.1))
  }

  /** What an envelope holds: with `nonce` the drawn decimal text filled with the character `0` to 24 bytes, `n` the
      first 12 bytes of the other and `key` the first 32 of the content key, both zero-filled, the content key is boxed
      for the recipient under `nonce`, and the text is sealed under `key` and `n` with the clear header as associated
      data. */
  lemma PackHolds(s: Suite, input: bytes, recPub: bytes, sendPub: bytes, sendPrv: bytes, rnd: Random,
                  nonce: bytes, n: bytes, key: bytes)
    requires |nonce| == 24 && forall k :: 0 <= k < 24 ==> nonce[k] == if k < |rnd.cekIv| then rnd.cekIv[k] else 48
    requires |n| == 12 && forall k :: 0 <= k < 12 ==> n[k] == if k < |rnd.iv| then rnd.iv[k] else 0
    requires |key| == 32 && forall k :: 0 <= k < 32 ==> key[k] == if k < |rnd.cek| then rnd.cek[k] else 0
    ensures var msg := Pack(s, input, recPub, sendPub, sendPrv, rnd);
            var header := s.marshalPayload(
              Payload("xchacha20poly1305_ietf", "JWM/1.0", "Authcrypt",
                      [Recipient(Encode(s.box(rnd.cek, nonce, recPub, sendPrv)), s.base58(recPub), Encode(rnd.cekIv),
                                 Encode(s.seal(sendPub, recPub, rnd.seal)))]));
            Decode(msg.protectedVal) == Some(header) && Decode(msg.iv) == Some(rnd.iv) &&
            Decode(msg.ciphertext) == Some(s.aead(input, header, n, key).0) &&
            Decode(msg.tag) == Some(s.aead(input, header, n, key).1)
  {
    assert nonce == NormalNonce(rnd.cekIv) && n == Fixed(12, rnd.iv) && key == Fixed(32, rnd.cek);
    var header := s.marshalPayload(PayloadOf(s, recPub, sendPub, sendPrv, rnd));
    var sealed := s.aead(input, header, n, key);
    RoundTrip(header);
    RoundTrip(rnd.iv);
    RoundTrip(sealed.0);
    RoundTrip(sealed.1);
  }

  function Unpack(s: Suite, data: bytes, recPub: bytes, recPrv: bytes): Option<bytes> {
    var msg := s.unmarshalMsg(data);
    if msg.None? then None else
    var decodedVal := Decode(msg.value.protectedVal);
    if decodedVal.None? then None else
    var payload := s.unmarshalPayload(decodedVal.value);
    if payload.None? || |payload.value.recipients| == 0 then None else
    var rec := payload.value.recipients[0];
    var sendKey := Decode(rec.sender);
    var encCek := Decode(rec.encryptedKey);
    var cekIv := Decode(rec.iv);
    if sendKey.None? || encCek.None? || cekIv.None? then None else
    var sendPub := s.sealOpen(sendKey.value, recPub, recPrv);
    var cek := BoxOpen(s, encCek.value, cekIv.value, sendPub, recPrv);
    var cipher := Decode(msg.value.ciphertext);
    var mac := Decode(msg.value.tag);
    var iv := Decode(msg.value.iv);
    if cipher.None? || mac.None? || iv.None? then None
    else DecryptDetached(s, cipher.value, mac.value, decodedVal.value, iv.value, cek)
  }

  /** Everything an envelope names decodes. */
  predicate Decodes(msg: AuthCryptMsg, rec: Recipient) {
    Decode(rec.sender).Some? && Decode(rec.encryptedKey).Some? && Decode(rec.iv).Some? &&
    Decode(msg.ciphertext).Some? && Decode(msg.tag).Some? && Decode(msg.iv).Some?
  }

  /** How an envelope is opened: by its first recipient, with the sender's key from the sealed box, the content key
      from the box under `nonce`, the drawn text filled with the character `0` to 24 bytes, and with `key` and `n`, the
      first 32 bytes of the content key and 12 of the other drawn text, zero-filled. */
  lemma UnpackOpens(s: Suite, data: bytes, recPub: bytes, recPrv: bytes, msg: AuthCryptMsg, header: bytes,
                    payload: Payload, nonce: bytes, n: bytes, cek: bytes, key: bytes)
    requires s.unmarshalMsg(data) == Some(msg)
    requires Decode(msg.protectedVal) == Some(header) && s.unmarshalPayload(header) == Some(payload)
    requires payload.recipients != [] && Decodes(msg, payload.recipients[0])
    requires var cekIv := Decode(payload.recipients[0].iv).value;
             |nonce| == 24 && forall k :: 0 <= k < 24 ==> nonce[k] == if k < |cekIv| then cekIv[k] else 48
    requires var iv := Decode(msg.iv).value;
             |n| == 12 && forall k :: 0 <= k < 12 ==> n[k] == if k < |iv| then iv[k] else 0
    requires var rec := payload.recipients[0];
             cek == s.boxOpen(Decode(rec.encryptedKey).value, nonce,
                              s.sealOpen(Decode(rec.sender).value, recPub, recPrv), recPrv)
    requires |key| == 32 && forall k :: 0 <= k < 32 ==> key[k] == if k < |cek| then cek[k] else 0
    ensures RecipientKey(s, data) == Some(s.base58Decode(payload.recipients[0].kid))
    ensures Unpack(s, data, recPub, recPrv) ==
            s.aeadOpen(Decode(msg.ciphertext).value, Decode(msg.tag).value, header, n, key)
  {
    assert nonce == NormalNonce(Decode(payload.recipients[0].iv).value);
    assert n == Fixed(12, Decode(msg.iv).value) && key == Fixed(32, cek);
  }

  /** Without recipients, or if something its first recipient needs does not decode, it stays closed. */
  lemma UnpackFails(s: Suite, data: bytes, recPub: bytes, recPrv: bytes, msg: AuthCryptMsg, header: bytes,
                    payload: Payload)
    requires s.unmarshalMsg(data) == Some(msg)
    requires Decode(msg.protectedVal) == Some(header) && s.unmarshalPayload(header) == Some(payload)
    ensures payload.recipients == [] ==> Unpack(s, data, recPub, recPrv).None? && RecipientKey(s, data).None?
    ensures payload.recipients != [] && !Decodes(msg, payload.recipients[0]) ==> Unpack(s, data, recPub, recPrv).None?
  {
  }

  lemma UnreadableStaysClosed(s: Suite, data: bytes, recPub: bytes, recPrv: bytes)
    requires s.unmarshalMsg(data).Some? && Decode(s.unmarshalMsg(data).value.protectedVal).Some? ==>
               s.unmarshalPayload(Decode(s.unmarshalMsg(data).value.protectedVal).value).None?
    ensures Unpack(s, data, recPub, recPrv).None?
  {
  }

  /** The receiver unpacks exactly what the sender packed for it, for every text, key pair and random choice. */
  lemma PackRoundTrip(s: Suite, input: bytes, sendPrv: bytes, recPrv: bytes, rnd: Random)
    requires Lawful(s)
    ensures Unpack(s, s.marshalMsg(Pack(s, input, s.pub(recPrv), s.pub(sendPrv), sendPrv, rnd)), s.pub(recPrv),
                   recPrv) == Some(input)
  {
    var recPub, sendPub := s.pub(recPrv), s.pub(sendPrv);
    var payload := PayloadOf(s, recPub, sendPub, sendPrv, rnd);
    var encPayload := s.marshalPayload(payload);
    var sealed := EncryptDetached(s, input, encPayload, rnd.iv, rnd.cek);
    RoundTrip(encPayload);
    RoundTrip(rnd.iv);
    RoundTrip(sealed.0);
    RoundTrip(sealed.1);
    RoundTrip(Box(s, rnd.cek, rnd.cekIv, recPub, sendPrv));
    RoundTrip(rnd.cekIv);
    RoundTrip(s.seal(sendPub, recPub, rnd.seal));
  }

  /** The envelope names its recipient's key in clear. */
  function RecipientKey(s: Suite, data: bytes): Option<bytes> {
    var msg := s.unmarshalMsg(data);
    if msg.None? then None else
    var decodedVal := Decode(msg.value.protectedVal);
    if decodedVal.None? then None else
    var payload := s.unmarshalPayload(decodedVal.value);
    if payload.None? || |payload.value.recipients| == 0 then None
    else Some(s.base58Decode(payload.value.recipients[0].kid))
  }

  lemma PackNamesRecipient(s: Suite, input: bytes, recPub: bytes, sendPub: bytes, sendPrv: bytes, rnd: Random)
    requires Lawful(s)
    ensures RecipientKey(s, s.marshalMsg(Pack(s, input, recPub, sendPub, sendPrv, rnd))) == Some(recPub)
  {
    RoundTrip(s.marshalPayload(PayloadOf(s, recPub, sendPub, sendPrv, rnd)));
  }
}
