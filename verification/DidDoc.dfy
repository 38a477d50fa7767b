/** The DID documents two agents exchange: `CreateDIDDoc` of `didcomm/did/handler.go` and the service loop of
    `getPeerInfo` in `prober/agent.go`. */
module DidDoc {
  import opened Base64
  import opened Envelope

  const KEY_BUFFER := 64

  const SERVC_MESSAGE := "message-service"
  const SERVC_GROUP_JOIN := "group-join-service"

  /** A service as the agent uses it, and as the document carries it. */
  datatype Service = Service(id: string, typ: string, endpoint: string, pubKey: bytes)

  datatype DocService = DocService(id: string, typ: string, recipientKeys: seq<string>, endpoint: string)

  type Document = seq<DocService>

  function DocServiceOf(svc: Service): DocService {
    DocService(svc.id, svc.typ, [Encode(svc.pubKey)], svc.endpoint)
  }

  function DocumentOf(svcs: seq<Service>): Document {
    seq(|svcs|, i requires 0 <= i < |svcs| => DocServiceOf(svcs[i]))
  }

  /** Keys of more than 48 bytes overrun the 64-byte buffer; all others, the empty one included, come out encoded. */
  method CreateDIDDoc(svcs: seq<Service>) returns (doc: Call<Document>)
    ensures doc == if forall svc :: svc in svcs ==> |svc.pubKey| <= 48 then Returned(DocumentOf(svcs)) else Panicked
    ensures doc.Returned? ==>
              |doc.value| == |svcs| &&
              forall i :: 0 <= i < |svcs| ==>
                doc.value[i] ==
                  DocService(svcs[i].id, svcs[i].typ, [Encode(svcs[i].pubKey)], svcs[i].endpoint)
  {
    var msgSvcs: Document := [];
    for i := 0 to |svcs|
      invariant |msgSvcs| == i
      invariant forall k :: 0 <= k < i ==> |svcs[k].pubKey| <= 48 && msgSvcs[k] == DocServiceOf(svcs[k])
    {
      var encodedKey := EncodeTrimmed(KEY_BUFFER, svcs[i].pubKey);
      if encodedKey.Panicked? {
        assert svcs[i] in svcs;
        return Panicked;
      }
      msgSvcs := msgSvcs + [DocService(svcs[i].id, svcs[i].typ, [encodedKey.value], svcs[i].endpoint)];
    }
    assert msgSvcs == DocumentOf(svcs);
    doc := Returned(msgSvcs);
  }

  /** The first recipient key that decodes. */
  function FirstKey(keys: seq<string>): Option<bytes> {
    if keys == [] then None
    else if Decode(keys[0]).Some? then Decode(keys[0])
    else FirstKey(keys[1..])
  }

  /** Services without a usable key are skipped. */
  function ServicesOf(doc: Document): seq<Service> {
    if doc == [] then []
    else
      var s, init := doc[|doc| - 1], ServicesOf(doc[..|doc| - 1]);
      var key := FirstKey(s.recipientKeys);
      if key.None? then init else init + [Service(s.id, s.typ, s.endpoint, key.value)]
  }

  method ReadServices(doc: Document) returns (svcs: seq<Service>)
    ensures svcs == ServicesOf(doc)
  {
    svcs := [];
    for i := 0 to |doc|
      invariant svcs == ServicesOf(doc[..i])
    {
      assert doc[..i + 1][..i] == doc[..i];
      var s := doc[i];
      var j := 0;
      while j < |s.recipientKeys|
        invariant 0 <= j <= |s.recipientKeys|
        invariant FirstKey(s.recipientKeys) == FirstKey(s.recipientKeys[j..])
        invariant svcs == ServicesOf(doc[..i])
      {
        var peerPubKey := Decode(s.recipientKeys[j]);
        if peerPubKey.Some? {
          svcs := svcs + [Service(s.id, s.typ, s.endpoint, peerPubKey.value)];
          break;
        }
        j := j + 1;
      }
    }
    assert doc[..|doc|] == doc;
  }

  /** Documents are read entry by entry. */
  lemma {:induction false} ServicesAppend(a: Document, b: Document)
    ensures ServicesOf(a + b) == ServicesOf(a) + ServicesOf(b)
  {
    if b == [] {
      assert a + b == a;
    } else {
      var init, s := b[..|b| - 1], b[|b| - 1];
      ServicesAppend(a, init);
      assert (a + b)[..|a + b| - 1] == a + init && (a + b)[|a + b| - 1] == s;
      var last := if FirstKey(s.recipientKeys).None? then []
                  else [Service(s.id, s.typ, s.endpoint, FirstKey(s.recipientKeys).value)];
      assert ServicesOf(b) == ServicesOf(init) + last && ServicesOf(a + b) == ServicesOf(a + init) + last;
    }
  }

  /** An entry gives the service with the first of its keys that decodes, and none if no key does. */
  lemma ServicesOfEntry(s: DocService, j: nat)
    requires j <= |s.recipientKeys| && forall k :: 0 <= k < j ==> Decode(s.recipientKeys[k]).None?
    ensures j == |s.recipientKeys| ==> ServicesOf([s]) == []
    ensures j < |s.recipientKeys| && Decode(s.recipientKeys[j]).Some? ==>
              ServicesOf([s]) == [Service(s.id, s.typ, s.endpoint, Decode(s.recipientKeys[j]).value)]
  {
    FirstKeyIs(s.recipientKeys, j);
    assert [s][..0] == [];
  }

  lemma {:induction false} FirstKeyIs(keys: seq<string>, j: nat)
    requires j <= |keys| && forall k :: 0 <= k < j ==> Decode(keys[k]).None?
    ensures j == |keys| ==> FirstKey(keys).None?
    ensures j < |keys| && Decode(keys[j]).Some? ==> FirstKey(keys) == Decode(keys[j])
  {
    if j > 0 {
      FirstKeyIs(keys[1..], j - 1);
    }
  }

  /** The receiver of a document reads the services it was made from, keys included. */
  lemma {:induction false} DocumentRoundTrip(svcs: seq<Service>)
    ensures ServicesOf(DocumentOf(svcs)) == svcs
  {
    if svcs != [] {
      var init, last := svcs[..|svcs| - 1], svcs[|svcs| - 1];
      DocumentRoundTrip(init);
      RoundTrip(last.pubKey);
      ServicesOfEntry(DocServiceOf(last), 0);
      ServicesAppend(DocumentOf(init), [DocServiceOf(last)]);
      assert DocumentOf(svcs) == DocumentOf(init) + [DocServiceOf(last)];
      assert svcs == init + [last];
    }
  }

  /** `infoByServc` and `Service`: the first service of the type. */
  function ByType(svcs: seq<Service>, typ: string): Option<Service> {
    if svcs == [] then None
    else if svcs[0].typ == typ then Some(svcs[0])
    else ByType(svcs[1..], typ)
  }

  lemma {:induction false} FirstOfType(svcs: seq<Service>, typ: string, i: nat)
    requires i <= |svcs| && forall k :: 0 <= k < i ==> svcs[k].typ != typ
    ensures i == |svcs| ==> ByType(svcs, typ).None?
    ensures i < |svcs| && svcs[i].typ == typ ==> ByType(svcs, typ) == Some(svcs[i])
  {
    if i > 0 {
      FirstOfType(svcs[1..], typ, i - 1);
    }
  }
}
