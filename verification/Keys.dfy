/** `crypto/keys.go`: one key pair per peer label, and the inverse lookup from a public key to its label. */
module Keys {
  import opened Base64
  import opened Envelope

  datatype KeyPair = KeyPair(pub: bytes, prv: bytes)

  type KeyStore = map<string, KeyPair>

  /** Different labels have different public keys, and no label is empty. */
  ghost predicate DistinctKeys(ks: KeyStore) {
    "" !in ks && forall a, b :: a in ks && b in ks && ks[a].pub == ks[b].pub ==> a == b
  }

  /** A label the key belongs to. */
  ghost function PeerOf(ks: KeyStore, pub: bytes): (name: Option<string>)
    ensures name.Some? ==> name.value in ks && ks[name.value].pub == pub
    ensures name.None? <==> forall l :: l in ks ==> ks[l].pub != pub
  {
    if l :| l in ks && ks[l].pub == pub then Some(l) else None
  }

  class KeyManager {
    var keyStore: KeyStore
    var invKeys: Option<KeyPair>

    constructor ()
      ensures keyStore == map[] && invKeys == None
    {
      keyStore := map[];
      invKeys := None;
    }

    method GenerateKeys(peer: string, generated: KeyPair)
      modifies this
      ensures keyStore == old(keyStore)[peer := generated] && invKeys == old(invKeys)
    {
      keyStore := keyStore[peer := generated];
    }

    method PublicKey(peer: string) returns (key: Option<bytes>)
      ensures key == if peer in keyStore then Some(keyStore[peer].pub) else None
    {
      if peer !in keyStore {
        return None;
      }
      key := Some(keyStore[peer].pub);
    }

    /** One pair serves all invitations. */
    method GenerateInvKeys(generated: KeyPair)
      modifies this
      ensures keyStore == old(keyStore)
      ensures invKeys == if old(invKeys).Some? then old(invKeys) else Some(generated)
    {
      if invKeys.Some? {
        return;
      }
      invKeys := Some(generated);
    }

    /** Ranges over the store until a label with the key turns up; an empty label counts as not found. */
    method Peer(pubKey: bytes) returns (name: Option<string>)
      ensures name.Some? ==> name.value in keyStore && keyStore[name.value].pub == pubKey && name.value != ""
      ensures name.None? ==> (forall l :: l in keyStore ==> keyStore[l].pub != pubKey) ||
                             ("" in keyStore && keyStore[""].pub == pubKey)
      ensures DistinctKeys(keyStore) ==> name == PeerOf(keyStore, pubKey)
    {
      var found := "";
      var rest := keyStore.Keys;
      while rest != {}
        invariant rest <= keyStore.Keys && found == ""
        invariant forall l :: l in keyStore && l !in rest ==> keyStore[l].pub != pubKey
        decreases rest
      {
        var n :| n in rest;
        var storePubKey := PublicKey(n);
        if storePubKey.value == pubKey {
          found := n;
          break;
        }
        rest := rest - {n};
      }
      if found != "" {
        return Some(found);
      }
      name := None;
    }
  }

  /** On a store with distinct keys the lookup inverts `PublicKey`. */
  lemma PeerInvertsPublicKey(ks: KeyStore, l: string)
    requires DistinctKeys(ks) && l in ks
    ensures PeerOf(ks, ks[l].pub) == Some(l)
  {
  }
}
