/** `prober/agent.go` and `prober/peers.go`: one agent's side of the DID exchange, and sending and reading
    messages over an established connection. */
module Prober {
  import opened Base64
  import opened Envelope
  import opened Keys
  import opened DidDoc

  const RETRY_COUNT := 10

  datatype Peer = Peer(did: string, exchId: string, services: seq<Service>)

  type Peers = map<string, Peer>

  /** The agent's label, its endpoints for messages and for group joins, and its stores; `inv` is the invitation key
      pair. */
  datatype Prober = Prober(name: string, exchEndpoint: string, grpJoinEndpoint: string, keys: KeyStore, inv: KeyPair,
                           docs: map<string, Document>, peers: Peers)

  datatype ConnReq = ConnReq(name: string, thId: string, did: string, encDoc: bytes)

  datatype ConnRes = ConnRes(thId: string, encDoc: bytes)

  /** The primitives, the JSON encoding of documents, and the DID derived from a document. */
  datatype Setup = Setup(s: Suite, marshalDoc: Document -> bytes, unmarshalDoc: bytes -> Option<Document>,
                         did: Document -> string)

  ghost predicate LawfulSetup(c: Setup) {
    Lawful(c.s) && forall d :: c.unmarshalDoc(c.marshalDoc(d)) == Some(d)
  }

  /** A freshly generated pair: the public key belongs to the private key and has 32 bytes. */
  ghost predicate ValidPair(c: Setup, k: KeyPair) {
    k.pub == c.s.pub(k.prv) && |k.pub| == 32
  }

  /** `Service`: an unknown peer is an error, and a peer without the service makes the source dereference nil. */
  function ServiceOf(p: Prober, name: string, peer: string): Call<Option<Service>> {
    if peer !in p.peers then Returned(None)
    else
      var svc := ByType(p.peers[peer].services, name);
      if svc.None? then Panicked else Returned(svc)
  }

  /** The group-join key in the peer entry for `l`. */
  function PeerKey(p: Prober, l: string): Call<Option<bytes>> {
    match ServiceOf(p, SERVC_GROUP_JOIN, l)
    case Panicked => Panicked
    case Returned(svc) => Returned(if svc.Some? then Some(svc.value.pubKey) else None)
  }

  /** That key where there is one; a join without one is aborted. */
  function KeyFor(p: Prober, l: string): bytes {
    var key := PeerKey(p, l);
    if key.Returned? && key.value.Some? then key.value.value else []
  }

  /** It is the key of the first service of that type; a peer entry without one makes the lookup panic, and without an
      entry there is no key. */
  lemma GroupJoinKey(p: Prober, l: string, i: nat)
    requires l in p.peers ==>
               i <= |p.peers[l].services| &&
               forall k :: 0 <= k < i ==> p.peers[l].services[k].typ != "group-join-service"
    ensures l !in p.peers ==> PeerKey(p, l) == Returned(None)
    ensures l in p.peers && i == |p.peers[l].services| ==> PeerKey(p, l).Panicked?
    ensures l in p.peers && i < |p.peers[l].services| && p.peers[l].services[i].typ == "group-join-service" ==>
              PeerKey(p, l) == Returned(Some(p.peers[l].services[i].pubKey)) &&
              KeyFor(p, l) == p.peers[l].services[i].pubKey
  {
    if l in p.peers {
      FirstOfType(p.peers[l].services, "group-join-service", i);
    }
  }

  // ---------------------------------------------------------------------------------- peers by exchange id

  /** A label whose peer has the exchange id. */
  ghost function ByExchId(peers: Peers, exchId: string): (name: Option<string>)
    ensures name.Some? ==> name.value in peers && peers[name.value].exchId == exchId
    ensures name.None? <==> forall l :: l in peers ==> peers[l].exchId != exchId
  {
    if l :| l in peers && peers[l].exchId == exchId then Some(l) else None
  }

  ghost predicate UniqueExchId(peers: Peers, exchId: string) {
    forall a, b :: a in peers && b in peers && peers[a].exchId == exchId && peers[b].exchId == exchId ==> a == b
  }

  method PeerByExchId(peers: Peers, exchId: string) returns (name: string, pr: Peer, exists_: bool)
    ensures exists_ <==> exists l :: l in peers && peers[l].exchId == exchId
    ensures exists_ ==> name in peers && peers[name] == pr && pr.exchId == exchId
    ensures exists_ && UniqueExchId(peers, exchId) ==> ByExchId(peers, exchId) == Some(name)
  {
    name, pr, exists_ := "", Peer("", "", []), false;
    var rest := peers.Keys;
    while rest != {}
      invariant rest <= peers.Keys
      invariant forall l :: l in peers && l !in rest ==> peers[l].exchId != exchId
      decreases rest
    {
      var key :| key in rest;
      if peers[key].exchId == exchId {
        return key, peers[key], true;
      }
      rest := rest - {key};
    }
  }

  /** The retry loop of `processConnRes`; `stores(k)` is the peer store the lookup number `k` sees.  There are at
      most eleven lookups, and the loop gives up exactly when none of eleven finds the peer. */
  method AwaitPeer(stores: nat -> Peers, exchId: string) returns (name: string, ok: bool, lookups: nat)
    ensures 1 <= lookups <= 11
    ensures forall k :: 0 <= k < lookups - 1 ==> ByExchId(stores(k), exchId).None?
    ensures ok ==> name in stores(lookups - 1) && stores(lookups - 1)[name].exchId == exchId
    ensures !ok <==> lookups == 11 && ByExchId(stores(10), exchId).None?
  {
    var retryCount := 0;
    while true
      invariant 0 <= retryCount <= RETRY_COUNT
      invariant forall k :: 0 <= k < retryCount ==> ByExchId(stores(k), exchId).None?
      decreases RETRY_COUNT - retryCount
    {
      var n, pr, found := PeerByExchId(stores(retryCount), exchId);
      if !found {
        if retryCount != RETRY_COUNT {
          retryCount := retryCount + 1;
          continue;
        }
        return "", false, retryCount + 1;
      }
      return n, true, retryCount + 1;
    }
  }

  // ------------------------------------------------------------------------------------- the handlers

  function OwnServices(p: Prober, key: KeyPair, ids: (string, string)): seq<Service> {
    [Service(ids.0, SERVC_MESSAGE, p.exchEndpoint, key.pub),
     Service(ids.1, SERVC_GROUP_JOIN, p.grpJoinEndpoint, key.pub)]
  }

  /** `setConnPrereqs`: a new pair for the peer and a document that carries its public key. */
  function WithPrereqs(p: Prober, peer: string, key: KeyPair, ids: (string, string)): Prober {
    p.(keys := p.keys[peer := key], docs := p.docs[peer := DocumentOf(OwnServices(p, key, ids))])
  }

  function SealedDoc(c: Setup, doc: Document, recPub: bytes, key: KeyPair, rnd: Random): bytes {
    c.s.marshalMsg(Pack(c.s, c.marshalDoc(doc), recPub, key.pub, key.prv, rnd))
  }

  /** `Accept` up to sending the request. */
  function RequestFor(c: Setup, p: Prober, inviter: string, invPub: bytes, key: KeyPair, ids: (string, string),
                      thId: string, rnd: Random): ConnReq {
    var doc := DocumentOf(OwnServices(p, key, ids));
    ConnReq(p.name, thId, c.did(doc), SealedDoc(c, doc, invPub, key, rnd))
  }

  function Remember(p: Prober, peer: string, pr: Peer): Prober {
    p.(peers := p.peers[peer := pr])
  }

  /** `getPeerInfo`. */
  function ReadDoc(c: Setup, encDoc: bytes, pub: bytes, prv: bytes): Option<seq<Service>> {
    var docBytes := Unpack(c.s, encDoc, pub, prv);
    if docBytes.None? then None else
    var doc := c.unmarshalDoc(docBytes.value);
    if doc.None? || |doc.value| == 0 then None else Some(ServicesOf(doc.value))
  }

  lemma SealedDocReads(c: Setup, p: Prober, recipient: KeyPair, key: KeyPair, ids: (string, string), rnd: Random)
    requires LawfulSetup(c) && ValidPair(c, recipient) && ValidPair(c, key)
    ensures ReadDoc(c, SealedDoc(c, DocumentOf(OwnServices(p, key, ids)), recipient.pub, key, rnd), recipient.pub,
                    recipient.prv)
              == Some(OwnServices(p, key, ids))
  {
    var doc := DocumentOf(OwnServices(p, key, ids));
    PackRoundTrip(c.s, c.marshalDoc(doc), key.prv, recipient.prv, rnd);
    DocumentRoundTrip(OwnServices(p, key, ids));
  }

  lemma OwnServicesByType(p: Prober, key: KeyPair, ids: (string, string))
    ensures ByType(OwnServices(p, key, ids), SERVC_MESSAGE) == Some(OwnServices(p, key, ids)[0])
    ensures ByType(OwnServices(p, key, ids), SERVC_GROUP_JOIN) == Some(OwnServices(p, key, ids)[1])
  {
    assert SERVC_MESSAGE[0] != SERVC_GROUP_JOIN[0];
    assert OwnServices(p, key, ids)[1..][0] == OwnServices(p, key, ids)[1];
  }

  /** `processConnReq` up to sending the response: the agent with the new pair, the response, and the services read. */
  function Answer(c: Setup, p: Prober, req: ConnReq, key: KeyPair, ids: (string, string), rnd: Random): Option<(Prober,
            ConnRes, seq<Service>)> {
    var svcs := ReadDoc(c, req.encDoc, p.inv.pub, p.inv.prv);
    if svcs.None? then None else
    var messageService := ByType(svcs.value, SERVC_MESSAGE);
    if messageService.None? then None else
    var p' := WithPrereqs(p, req.name, key, ids);
    Some((p', ConnRes(req.thId, SealedDoc(c, p'.docs[req.name], messageService.value.pubKey, key, rnd)), svcs.value))
  }

  /** A request is answered exactly if its document opens with the invitation pair and lists a message service; the
      response carries the request's id and is sealed for the key of the first such service with the new pair. */
  lemma RequestIsAnswered(c: Setup, p: Prober, req: ConnReq, key: KeyPair, ids: (string, string), rnd: Random,
                          docBytes: bytes, doc: Document, i: nat)
    requires Unpack(c.s, req.encDoc, p.inv.pub, p.inv.prv) == Some(docBytes) && c.unmarshalDoc(docBytes) == Some(doc)
    requires i <= |ServicesOf(doc)| && forall k :: 0 <= k < i ==> ServicesOf(doc)[k].typ != "message-service"
    ensures doc == [] || i == |ServicesOf(doc)| ==> Answer(c, p, req, key, ids, rnd).None?
    ensures i < |ServicesOf(doc)| && ServicesOf(doc)[i].typ == "message-service" ==>
              var own := [DocService(ids.0, "message-service", [Encode(key.pub)], p.exchEndpoint),
                          DocService(ids.1, "group-join-service", [Encode(key.pub)], p.grpJoinEndpoint)];
              var sealed := Pack(c.s, c.marshalDoc(own), ServicesOf(doc)[i].pubKey, key.pub, key.prv, rnd);
              Answer(c, p, req, key, ids, rnd) ==
                Some((p.(keys := p.keys[req.name := key], docs := p.docs[req.name := own]),
                      ConnRes(req.thId, c.s.marshalMsg(sealed)), ServicesOf(doc)))
  {
    FirstOfType(ServicesOf(doc), "message-service", i);
    OwnDocument(p, key, ids);
  }

  lemma OwnDocument(p: Prober, key: KeyPair, ids: (string, string))
    ensures DocumentOf(OwnServices(p, key, ids)) ==
            [DocService(ids.0, "message-service", [Encode(key.pub)], p.exchEndpoint),
             DocService(ids.1, "group-join-service", [Encode(key.pub)], p.grpJoinEndpoint)]
  {
  }

  /** A document that does not open, cannot be read, or lists nothing gives no services. */
  lemma UnreadDoc(c: Setup, encDoc: bytes, pub: bytes, prv: bytes)
    requires Unpack(c.s, encDoc, pub, prv).Some? && c.unmarshalDoc(Unpack(c.s, encDoc, pub, prv).value).Some? ==>
               c.unmarshalDoc(Unpack(c.s, encDoc, pub, prv).value) == Some([])
    ensures ReadDoc(c, encDoc, pub, prv).None?
  {
  }

  /** `processConnRes` once the peer has been found under `name`. */
  function Complete(c: Setup, p: Prober, res: ConnRes, name: string): Option<Prober>
    requires name in p.peers
  {
    if name !in p.keys then None else
    var svcs := ReadDoc(c, res.encDoc, p.keys[name].pub, p.keys[name].prv);
    if svcs.None? then None
    else Some(Remember(p, name, Peer(p.peers[name].did, res.thId, svcs.value)))
  }

  /** A response completes the connection exactly if a pair is kept for the peer and the document opens with it; the
      peer keeps its DID and gets the response's id and the services. */
  lemma ResponseIsCompleted(c: Setup, p: Prober, res: ConnRes, name: string)
    requires name in p.peers
    ensures name !in p.keys ==> Complete(c, p, res, name).None?
    ensures name in p.keys ==>
              match ReadDoc(c, res.encDoc, p.keys[name].pub, p.keys[name].prv)
              case None => Complete(c, p, res, name).None?
              case Some(svcs) =>
                Complete(c, p, res, name) ==
                  Some(p.(peers := p.peers[name := Peer(p.peers[name].did, res.thId, svcs)]))
  {
  }

  // ------------------------------------------------------------------------------------------ messages

  /** What reading a message gives: the sender's label and the text, an error, or a panic on an envelope without
      recipients. */
  datatype Read = Message(sender: string, text: bytes) | Failed | Crashed

  /** `SendMessage` up to the transport: no message without the peer, the pair and the message service. */
  function Outgoing(c: Setup, p: Prober, to: string, text: bytes, rnd: Random): Option<bytes> {
    if to !in p.peers || to !in p.keys then None else
    var svc := ByType(p.peers[to].services, SERVC_MESSAGE);
    if svc.None? then None
    else Some(c.s.marshalMsg(Pack(c.s, text, svc.value.pubKey, p.keys[to].pub, p.keys[to].prv, rnd)))
  }

  /** A message is packed for the key of the peer's first message service, with the pair kept for the peer; it fails
      without the peer, the pair or the service. */
  lemma OutgoingIs(c: Setup, p: Prober, to: string, text: bytes, rnd: Random, i: nat)
    requires to in p.peers ==>
               i <= |p.peers[to].services| &&
               forall k :: 0 <= k < i ==> p.peers[to].services[k].typ != "message-service"
    ensures to !in p.peers || to !in p.keys || i == |p.peers[to].services| ==> Outgoing(c, p, to, text, rnd).None?
    ensures to in p.peers && to in p.keys && i < |p.peers[to].services| &&
            p.peers[to].services[i].typ == "message-service" ==>
              Outgoing(c, p, to, text, rnd) ==
                Some(c.s.marshalMsg(
                  Pack(c.s, text, p.peers[to].services[i].pubKey, p.keys[to].pub, p.keys[to].prv, rnd)))
  {
    if to in p.peers {
      FirstOfType(p.peers[to].services, "message-service", i);
    }
  }

  /** `peerByMsg` indexes the first recipient without checking that there is one. */
  predicate NoRecipient(s: Suite, data: bytes) {
    var msg := s.unmarshalMsg(data);
    msg.Some? && Decode(msg.value.protectedVal).Some? &&
    s.unmarshalPayload(Decode(msg.value.protectedVal).value).Some? &&
    s.unmarshalPayload(Decode(msg.value.protectedVal).value).value.recipients == []
  }

  ghost function ReadMessage(c: Setup, ks: KeyStore, data: bytes): Read {
    if NoRecipient(c.s, data) then Crashed else
    var key := RecipientKey(c.s, data);
    if key.None? then Failed else
    var name := PeerOf(ks, key.value);
    if name.None? then Failed else
    var text := Unpack(c.s, data, ks[name.value].pub, ks[name.value].prv);
    if text.None? then Failed else Message(name.value, text.value)
  }

  /** Reading crashes exactly on an envelope whose header can be read and names no recipient. */
  lemma CrashesIff(c: Setup, ks: KeyStore, data: bytes, msg: AuthCryptMsg, payload: Payload)
    requires c.s.unmarshalMsg(data) == Some(msg) && Decode(msg.protectedVal).Some?
    requires c.s.unmarshalPayload(Decode(msg.protectedVal).value) == Some(payload)
    ensures ReadMessage(c, ks, data) == Crashed <==> payload.recipients == []
  {
  }

  lemma PackedHasRecipient(c: Setup, text: bytes, recPub: bytes, sendPub: bytes, sendPrv: bytes, rnd: Random)
    requires LawfulSetup(c)
    ensures !NoRecipient(c.s, c.s.marshalMsg(Pack(c.s, text, recPub, sendPub, sendPrv, rnd)))
  {
    RoundTrip(c.s.marshalPayload(PayloadOf(c.s, recPub, sendPub, sendPrv, rnd)));
  }

  /** A message packed for the pair the receiver keeps for `sender` is read as the exact text, from `sender`. */
  lemma PackedIsRead(c: Setup, ks: KeyStore, sender: string, key: KeyPair, text: bytes, rnd: Random)
    requires LawfulSetup(c) && DistinctKeys(ks) && sender in ks && ValidPair(c, ks[sender]) && ValidPair(c, key)
    ensures ReadMessage(c, ks, c.s.marshalMsg(Pack(c.s, text, ks[sender].pub, key.pub, key.prv, rnd))) ==
            Message(sender, text)
  {
    PackedHasRecipient(c, text, ks[sender].pub, key.pub, key.prv, rnd);
    PackNamesRecipient(c.s, text, ks[sender].pub, key.pub, key.prv, rnd);
    PeerInvertsPublicKey(ks, sender);
    PackRoundTrip(c.s, text, key.prv, ks[sender].prv, rnd);
  }

  /** A message packed for a key that is not in the store is rejected. */
  lemma ForeignIsRejected(c: Setup, ks: KeyStore, recPub: bytes, key: KeyPair, text: bytes, rnd: Random)
    requires LawfulSetup(c) && forall l :: l in ks ==> ks[l].pub != recPub
    ensures ReadMessage(c, ks, c.s.marshalMsg(Pack(c.s, text, recPub, key.pub, key.prv, rnd))) == Failed
  {
    PackedHasRecipient(c, text, recPub, key.pub, key.prv, rnd);
    PackNamesRecipient(c.s, text, recPub, key.pub, key.prv, rnd);
  }
}
