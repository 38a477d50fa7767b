/** How the handshakes of the agents add up to a network: an exchange connects its two agents and leaves every
    other connection alone. */
module Connections {
  import opened Keys
  import opened Prober
  import opened Handshake
  import opened Delivery

  /** The agents keep distinct keys and exchange ids, and the pairs in `links` are connected. */
  ghost predicate Linked(c: Setup, net: map<string, Prober>, links: set<(string, string)>) {
    LawfulSetup(c) && FreshIds(net) && OwnKeys(net) && (forall x :: x in net ==> net[x].name == x) &&
    AllConnected(c, net, links)
  }

  ghost predicate AllConnected(c: Setup, net: map<string, Prober>, links: set<(string, string)>) {
    forall l :: l in links ==> l.0 in net && l.1 in net && l.0 != l.1 && Connected(c, net[l.0], net[l.1])
  }

  /** No key is kept for two connections, nor by two agents. */
  ghost predicate OwnKeys(net: map<string, Prober>) {
    forall x, y, u, v ::
      x in net && y in net && u in net[x].keys && v in net[y].keys && net[x].keys[u].pub == net[y].keys[v].pub ==>
        x == y && u == v
  }

  /** The exchange takes place between agents of the network, with an id and keys that nobody has. */
  ghost predicate Takes(net: map<string, Prober>, x: Exchange) {
    Fresh(x) && x.a0.name in net && net[x.a0.name] == x.a0 && x.b0.name in net && net[x.b0.name] == x.b0 &&
    (forall u, v :: u in net && v in net[u].peers ==> net[u].peers[v].exchId != x.thId) &&
    (forall u, v :: u in net && v in net[u].keys ==>
     net[u].keys[v].pub != x.keyA.pub && net[u].keys[v].pub != x.keyB.pub) &&
    x.keyA.pub != x.keyB.pub
  }

  /** The network while the exchange is in the state `w`. */
  ghost function During(net: map<string, Prober>, x: Exchange, w: World): map<string, Prober> {
    net[x.a0.name := w.a][x.b0.name := w.b]
  }

  /** The agent differs from before at most in its entries for one peer. */
  ghost predicate SameButFor(p: Prober, p': Prober, peer: string) {
    p'.name == p.name && DistinctKeys(p'.keys) &&
    (forall v :: v in p.peers && v != peer ==> v in p'.peers && p'.peers[v] == p.peers[v]) &&
    (forall v :: v in p.keys && v != peer ==> v in p'.keys && p'.keys[v] == p.keys[v])
  }

  lemma OtherConnectionStays(c: Setup, p: Prober, p': Prober, peer: string, q: Prober)
    requires SameButFor(p, p', peer) && Connected(c, p, q) && q.name != peer
    ensures Connected(c, p', q)
  {
  }

  lemma ShapesOfSides(x: Exchange, aPhase: APhase, completed: bool, bPhase: BPhase)
    requires Fresh(x)
    ensures SameButFor(x.a0, ShapeA(x, aPhase, completed), x.b0.name) && SameButFor(x.b0, ShapeB(x, bPhase), x.a0.name)
  {
    FreshKeysStayDistinct(x);
  }

  lemma SidesOfExchange(x: Exchange, worlds: seq<World>, steps: seq<Step>, i: nat)
    requires Fresh(x) && Run(x, worlds, steps) && i < |worlds|
    ensures SameButFor(x.a0, worlds[i].a, x.b0.name) && SameButFor(x.b0, worlds[i].b, x.a0.name)
  {
    Handshake.RunKeepsInv(x, worlds, steps, i);
    ShapesOfSides(x, worlds[i].aPhase, worlds[i].resPhase.Completed?, worlds[i].bPhase);
  }

  /** At every moment of an exchange the requester is still connected with everybody it was connected with before. */
  lemma RequesterKeepsConnections(x: Exchange, worlds: seq<World>, steps: seq<Step>, i: nat, q: Prober)
    requires Fresh(x) && Run(x, worlds, steps) && i < |worlds| && Connected(x.c, x.a0, q)
    ensures Connected(x.c, worlds[i].a, q) && worlds[i].a.name == x.a0.name
  {
    SidesOfExchange(x, worlds, steps, i);
    OtherConnectionStays(x.c, x.a0, worlds[i].a, x.b0.name, q);
  }

  /** So is the inviter. */
  lemma InviterKeepsConnections(x: Exchange, worlds: seq<World>, steps: seq<Step>, i: nat, q: Prober)
    requires Fresh(x) && Run(x, worlds, steps) && i < |worlds| && Connected(x.c, x.b0, q)
    ensures Connected(x.c, worlds[i].b, q) && worlds[i].b.name == x.b0.name
  {
    SidesOfExchange(x, worlds, steps, i);
    OtherConnectionStays(x.c, x.b0, worlds[i].b, x.a0.name, q);
  }

  lemma Symmetric(c: Setup, p: Prober, q: Prober)
    requires Connected(c, p, q)
    ensures Connected(c, q, p)
  {
  }

  /** The agent's peers and keys are those from before, and perhaps a peer with the new id and a new pair. */
  ghost predicate OnlyAdds(p: Prober, p': Prober, peer: string, id: string, key: KeyPair) {
    p'.name == p.name &&
    (forall v :: v in p'.peers ==>
       if v == peer then p'.peers[v].exchId == id else v in p.peers && p'.peers[v].exchId == p.peers[v].exchId) &&
    (forall v :: v in p'.keys ==>
     if v == peer && p'.keys[v] == key then true else v in p.keys && p'.keys[v] == p.keys[v])
  }

  lemma SidesOnlyAdd(x: Exchange, worlds: seq<World>, steps: seq<Step>, i: nat)
    requires Fresh(x) && Run(x, worlds, steps) && i < |worlds|
    ensures OnlyAdded(x, worlds[i])
  {
    Handshake.RunKeepsInv(x, worlds, steps, i);
  }

  /** Both sides of the exchange have added to their stores at most what is theirs. */
  ghost predicate OnlyAdded(x: Exchange, w: World) {
    OnlyAdds(x.a0, w.a, x.b0.name, x.thId, x.keyA) && OnlyAdds(x.b0, w.b, x.a0.name, x.thId, x.keyB)
  }

  /** A peer entry is an old one or one of the two sides' new ones. */
  lemma PeerEntry(net: map<string, Prober>, x: Exchange, w: World, u: string, v: string)
    requires Takes(net, x) && OnlyAdded(x, w) && u in During(net, x, w) && v in During(net, x, w)[u].peers
    ensures var id := During(net, x, w)[u].peers[v].exchId;
            if (u == x.a0.name && v == x.b0.name) || (u == x.b0.name && v == x.a0.name) then id == x.thId
            else id != x.thId && u in net && v in net[u].peers && id == net[u].peers[v].exchId
  {
  }

  lemma IdsStayFresh(net: map<string, Prober>, x: Exchange, w: World)
    requires FreshIds(net) && Takes(net, x) && OnlyAdded(x, w)
    ensures FreshIds(During(net, x, w))
  {
    var net' := During(net, x, w);
    forall y, v, u, z |
      y in net' && v in net'[y].peers && u in net' && z in net'[u].peers &&
        net'[y].peers[v].exchId == net'[u].peers[z].exchId
      ensures (y == u && v == z) || (y == z && v == u)
    {
      PeerEntry(net, x, w, y, v);
      PeerEntry(net, x, w, u, z);
    }
  }

  /** A key is an old one or one of the two sides' new ones. */
  lemma KeyEntry(net: map<string, Prober>, x: Exchange, w: World, u: string, v: string)
    requires Takes(net, x) && OnlyAdded(x, w) && u in During(net, x, w) && v in During(net, x, w)[u].keys
    ensures var pub := During(net, x, w)[u].keys[v].pub;
            (u == x.a0.name && v == x.b0.name && pub == x.keyA.pub) ||
              (u == x.b0.name && v == x.a0.name && pub == x.keyB.pub) ||
            (pub != x.keyA.pub && pub != x.keyB.pub && u in net && v in net[u].keys && pub == net[u].keys[v].pub)
  {
  }

  lemma KeysStayOwn(net: map<string, Prober>, x: Exchange, w: World)
    requires OwnKeys(net) && Takes(net, x) && OnlyAdded(x, w)
    ensures OwnKeys(During(net, x, w))
  {
    var net' := During(net, x, w);
    forall y, u, v, z | y in net' && u in net' && v in net'[y].keys && z in net'[u].keys &&
      net'[y].keys[v].pub == net'[u].keys[z].pub
      ensures y == u && v == z
    {
      KeyEntry(net, x, w, y, v);
      KeyEntry(net, x, w, u, z);
    }
  }

  /** An exchange with an unused id keeps the ids of the network fresh, whenever it stops. */
  lemma ExchangeKeepsFreshIds(net: map<string, Prober>, x: Exchange, worlds: seq<World>, steps: seq<Step>, i: nat)
    requires FreshIds(net) && Takes(net, x) && Run(x, worlds, steps) && i < |worlds|
    ensures FreshIds(During(net, x, worlds[i]))
  {
    SidesOnlyAdd(x, worlds, steps, i);
    IdsStayFresh(net, x, worlds[i]);
  }

  lemma ExchangeKeepsOwnKeys(net: map<string, Prober>, x: Exchange, worlds: seq<World>, steps: seq<Step>, i: nat)
    requires OwnKeys(net) && Takes(net, x) && Run(x, worlds, steps) && i < |worlds|
    ensures OwnKeys(During(net, x, worlds[i]))
  {
    SidesOnlyAdd(x, worlds, steps, i);
    KeysStayOwn(net, x, worlds[i]);
  }

  /** No exchange touches a connection between other agents, or one of its own agents with a third. */
  lemma ExchangeKeepsConnections(c: Setup, net: map<string, Prober>, x: Exchange, worlds: seq<World>, steps: seq<Step>,
                                 i: nat, u: string, v: string)
    requires Takes(net, x) && Run(x, worlds, steps) && i < |worlds| && x.c == c
    requires (forall y :: y in net ==> net[y].name == y) && u in net && v in net && u != v &&
             Connected(c, net[u], net[v])
    ensures Connected(c, During(net, x, worlds[i])[u], During(net, x, worlds[i])[v])
  {
    if u == x.a0.name {
      RequesterKeepsConnections(x, worlds, steps, i, net[v]);
    } else if u == x.b0.name {
      InviterKeepsConnections(x, worlds, steps, i, net[v]);
    } else if v == x.a0.name {
      Symmetric(c, net[u], net[v]);
      RequesterKeepsConnections(x, worlds, steps, i, net[u]);
      Symmetric(c, worlds[i].a, net[u]);
    } else if v == x.b0.name {
      Symmetric(c, net[u], net[v]);
      InviterKeepsConnections(x, worlds, steps, i, net[u]);
      Symmetric(c, worlds[i].b, net[u]);
    }
  }

  /** A completed exchange with fresh data adds its pair to the connections of the network and loses none. */
  lemma ExchangeLinks(c: Setup, net: map<string, Prober>, links: set<(string, string)>, x: Exchange, worlds: seq<World>,
                      steps: seq<Step>, i: nat)
    requires Linked(c, net, links) && Takes(net, x) && x.c == c && Run(x, worlds, steps) && i < |worlds|
    requires HoldsServices(worlds[i].a, x.b0.name) && HoldsServices(worlds[i].b, x.a0.name)
    ensures Linked(c, During(net, x, worlds[i]), links + {(x.a0.name, x.b0.name), (x.b0.name, x.a0.name)})
  {
    ExchangeKeepsFreshIds(net, x, worlds, steps, i);
    ExchangeKeepsOwnKeys(net, x, worlds, steps, i);
    NewLink(c, net, x, worlds, steps, i);
    LinksStay(c, net, links, x, worlds, steps, i);
    NamesStay(net, x, worlds, steps, i);
    OneMoreLink(c, During(net, x, worlds[i]), links, x.a0.name, x.b0.name);
  }

  lemma OneMoreLink(c: Setup, net: map<string, Prober>, links: set<(string, string)>, u: string, v: string)
    requires AllConnected(c, net, links) && u in net && v in net && u != v
    requires Connected(c, net[u], net[v]) && Connected(c, net[v], net[u])
    ensures AllConnected(c, net, links + {(u, v), (v, u)})
  {
  }

  lemma NamesStay(net: map<string, Prober>, x: Exchange, worlds: seq<World>, steps: seq<Step>, i: nat)
    requires Takes(net, x) && Run(x, worlds, steps) && i < |worlds| && forall y :: y in net ==> net[y].name == y
    ensures forall y :: y in During(net, x, worlds[i]) ==> During(net, x, worlds[i])[y].name == y
  {
    SidesOnlyAdd(x, worlds, steps, i);
  }

  lemma LinksStay(c: Setup, net: map<string, Prober>, links: set<(string, string)>, x: Exchange, worlds: seq<World>,
                  steps: seq<Step>, i: nat)
    requires Linked(c, net, links) && Takes(net, x) && x.c == c && Run(x, worlds, steps) && i < |worlds|
    ensures AllConnected(c, During(net, x, worlds[i]), links)
  {
    var net' := During(net, x, worlds[i]);
    forall l | l in links ensures l.0 in net' && l.1 in net' && l.0 != l.1 && Connected(c, net'[l.0], net'[l.1]) {
      ExchangeKeepsConnections(c, net, x, worlds, steps, i, l.0, l.1);
    }
  }

  lemma NewLink(c: Setup, net: map<string, Prober>, x: Exchange, worlds: seq<World>, steps: seq<Step>, i: nat)
    requires Takes(net, x) && x.c == c && Run(x, worlds, steps) && i < |worlds|
    requires HoldsServices(worlds[i].a, x.b0.name) && HoldsServices(worlds[i].b, x.a0.name)
    ensures var net' := During(net, x, worlds[i]);
            x.a0.name in net' && x.b0.name in net' && x.a0.name != x.b0.name &&
            Connected(c, net'[x.a0.name], net'[x.b0.name]) && Connected(c, net'[x.b0.name], net'[x.a0.name])
  {
    HandshakeAgreement(x, worlds, steps, i);
    Symmetric(c, worlds[i].a, worlds[i].b);
  }

  /** Any two agents of a network that do not know each other can exchange, with an id and keys that nobody has. */
  lemma StrangersCanExchange(c: Setup, net: map<string, Prober>, links: set<(string, string)>, x: Exchange)
    requires Linked(c, net, links) && x.c == c && ValidPair(c, x.keyA) && ValidPair(c, x.keyB) && ValidPair(c, x.b0.inv)
    requires x.a0.name in net && x.b0.name in net && net[x.a0.name] == x.a0 && net[x.b0.name] == x.b0
    requires x.a0.name != x.b0.name && "" !in net && "" !in x.a0.keys && "" !in x.b0.keys
    requires x.b0.name !in x.a0.peers && x.a0.name !in x.b0.peers
    requires forall u, v :: u in net && v in net[u].peers ==> net[u].peers[v].exchId != x.thId
    requires forall u, v :: u in net && v in net[u].keys ==>
               net[u].keys[v].pub != x.keyA.pub && net[u].keys[v].pub != x.keyB.pub
    requires x.keyA.pub != x.keyB.pub
    ensures Takes(net, x)
  {
  }

  // ------------------------------------------------------------------------- one exchange after another

  /** An exchange with a run of it, at whose end both sides hold each other's services. */
  datatype Finished = Finished(x: Exchange, worlds: seq<World>, steps: seq<Step>)

  ghost predicate Completes(e: Finished) {
    Run(e.x, e.worlds, e.steps) &&
    HoldsServices(e.worlds[|e.steps|].a, e.x.b0.name) && HoldsServices(e.worlds[|e.steps|].b, e.x.a0.name)
  }

  /** Agents that know nobody yet. */
  ghost predicate Strangers(c: Setup, net: map<string, Prober>) {
    LawfulSetup(c) && forall x :: x in net ==> net[x].name == x && net[x].peers == map[] && net[x].keys == map[]
  }

  /** The agents exchange with one another, one completed exchange after the other, each with fresh data. */
  ghost predicate Formation(c: Setup, nets: seq<map<string, Prober>>, exchanges: seq<Finished>) {
    |nets| == |exchanges| + 1 && Strangers(c, nets[0]) &&
    forall i :: 0 <= i < |exchanges| ==>
      Completes(exchanges[i]) && exchanges[i].x.c == c && Takes(nets[i], exchanges[i].x) &&
      nets[i + 1] == During(nets[i], exchanges[i].x, exchanges[i].worlds[|exchanges[i].steps|])
  }

  /** The pairs, in both directions, that the first `k` exchanges are about. */
  function Pairs(exchanges: seq<Finished>, k: nat): set<(string, string)>
    requires k <= |exchanges|
  {
    if k == 0 then {}
    else
      var x := exchanges[k - 1].x;
      Pairs(exchanges, k - 1) + {(x.a0.name, x.b0.name), (x.b0.name, x.a0.name)}
  }

  lemma PairsOf(exchanges: seq<Finished>, k: nat, j: nat)
    requires j < k <= |exchanges|
    ensures var x := exchanges[j].x;
            (x.a0.name, x.b0.name) in Pairs(exchanges, k) && (x.b0.name, x.a0.name) in Pairs(exchanges, k)
  {
    if j < k - 1 {
      PairsOf(exchanges, k - 1, j);
    }
  }

  /** Whatever the agents and the order of their exchanges, all pairs that have exchanged are connected, with all ids
      and keys apart. */
  lemma {:induction false} FormationLinks(c: Setup, nets: seq<map<string, Prober>>, exchanges: seq<Finished>, k: nat)
    requires Formation(c, nets, exchanges) && k <= |exchanges|
    ensures Linked(c, nets[k], Pairs(exchanges, k)) && nets[k].Keys == nets[0].Keys
  {
    if k > 0 {
      FormationLinks(c, nets, exchanges, k - 1);
      var e := exchanges[k - 1];
      assert Completes(e) && e.x.c == c && Takes(nets[k - 1], e.x);
      assert nets[k - 1 + 1] == During(nets[k - 1], e.x, e.worlds[|e.steps|]);
      ExchangeFinished(c, nets[k - 1], Pairs(exchanges, k - 1), e);
    }
  }

  lemma ExchangeFinished(c: Setup, net: map<string, Prober>, links: set<(string, string)>, e: Finished)
    requires Linked(c, net, links) && Completes(e) && e.x.c == c && Takes(net, e.x)
    ensures var net' := During(net, e.x, e.worlds[|e.steps|]);
            net'.Keys == net.Keys &&
            Linked(c, net', links + {(e.x.a0.name, e.x.b0.name), (e.x.b0.name, e.x.a0.name)})
  {
    ExchangeLinks(c, net, links, e.x, e.worlds, e.steps, |e.steps|);
  }
}
