/** Membership, handshakes and delivery put together: what a message sent in a settled group reaches. */
module GroupMessaging {
  import opened GoStrings
  import opened Models
  import opened Validator
  import opened Topics
  import opened DataFilters
  import opened Envelope
  import opened DidDoc
  import opened Prober
  import opened LocalSteps
  import Connections
  import Handshake
  import Membership
  import Delivery

  /** `connectMember`: the group-join key in `x`'s peer entry for `l`. */
  function ServiceKey(net: map<string, Prober>, x: string, l: string): Key {
    if x in net then KeyFor(net[x], l) else []
  }

  /** `subscribeData` and `subscriptions`: the joiner `j` sends its public key for `x` in base58, and `x` decodes it. */
  function SentKey(c: Setup, net: map<string, Prober>, j: string, x: string): Key {
    if j in net && x in net[j].keys then c.s.base58Decode(c.s.base58(net[j].keys[x].pub)) else []
  }

  /** A group of the agents of the network, over their connections. */
  function GroupConfig(h: Digest, topic: string, params: GroupParams, c: Setup,
                       net: map<string, Prober>): Membership.Config {
    Membership.Config(h, topic, params, net.Keys, (x, l) => ServiceKey(net, x, l), (j, x) => SentKey(c, net, j, x))
  }

  /** All agents are connected pairwise, and no two agents hold the same connection key. */
  ghost predicate Network(c: Setup, net: map<string, Prober>) {
    LawfulSetup(c) && (forall x :: x in net ==> net[x].name == x) &&
    (forall x, y :: x in net && y in net && x != y ==> Handshake.Connected(c, net[x], net[y])) &&
    (forall x, y, u, v :: x in net && y in net && x != y && u in net[x].keys && v in net[y].keys ==>
     net[x].keys[u].pub != net[y].keys[v].pub)
  }

  /** Some exchange was about the two agents. */
  ghost predicate Exchanged(exchanges: seq<Connections.Finished>, x: string, y: string) {
    exists j :: 0 <= j < |exchanges| && {exchanges[j].x.a0.name, exchanges[j].x.b0.name} == {x, y}
  }

  /** Agents that start without knowing anybody, and exchange one after the other until any two have exchanged, form
      such a network. */
  lemma ExchangesFormNetwork(c: Setup, nets: seq<map<string, Prober>>, exchanges: seq<Connections.Finished>)
    requires Connections.Formation(c, nets, exchanges)
    requires forall x, y :: x in nets[0] && y in nets[0] && x != y ==> Exchanged(exchanges, x, y)
    ensures nets[|exchanges|].Keys == nets[0].Keys && Network(c, nets[|exchanges|])
  {
    var net, links := nets[|exchanges|], Connections.Pairs(exchanges, |exchanges|);
    Connections.FormationLinks(c, nets, exchanges, |exchanges|);
    forall x, y | x in net && y in net && x != y ensures Handshake.Connected(c, net[x], net[y]) {
      ExchangedPair(exchanges, x, y);
      assert (x, y) in links;
    }
  }

  lemma ExchangedPair(exchanges: seq<Connections.Finished>, x: string, y: string)
    requires Exchanged(exchanges, x, y) && x != y
    ensures (x, y) in Connections.Pairs(exchanges, |exchanges|)
  {
    var j :| 0 <= j < |exchanges| && {exchanges[j].x.a0.name, exchanges[j].x.b0.name} == {x, y};
    Connections.PairsOf(exchanges, |exchanges|, j);
    PairOfTwo(exchanges[j].x.a0.name, exchanges[j].x.b0.name, x, y);
  }

  lemma PairOfTwo(a: string, b: string, x: string, y: string)
    requires {a, b} == {x, y} && x != y
    ensures (a == x && b == y) || (a == y && b == x)
  {
    assert a in {x, y} && b in {x, y} && x in {a, b} && y in {a, b};
  }

  /** Whichever way a publisher `x` came to index `l`, it holds the key that `l`'s envelope for it expects. */
  lemma IndexKeyIsExpected(cfg: Membership.Config, c: Setup, net: map<string, Prober>, x: string, l: string, key: Key)
    requires Network(c, net) && cfg == GroupConfig(cfg.h, cfg.topic, cfg.params, c, net)
    requires x in net && l in net && x != l && Membership.IndexKey(cfg, x, l, key)
    ensures x in net[l].keys && key == net[l].keys[x].pub
  {
    assert Handshake.Connected(c, net[x], net[l]);
    ConnectionKeys(c, net, x, l);
    assert cfg.serviceKey(x, l) == ServiceKey(net, x, l) && cfg.sentKey(l, x) == SentKey(c, net, l, x);
  }

  lemma ConnectionKeys(c: Setup, net: map<string, Prober>, x: string, l: string)
    requires LawfulSetup(c) && x in net && l in net && net[x].name == x && net[l].name == l
    requires Handshake.Connected(c, net[x], net[l])
    ensures ServiceKey(net, x, l) == net[l].keys[x].pub && SentKey(c, net, l, x) == net[l].keys[x].pub
  {
    assert SERVC_GROUP_JOIN in {SERVC_MESSAGE, SERVC_GROUP_JOIN};
  }

  /** The sender's and a receiver's part in one message of the publisher `x`. */
  ghost predicate Takes(cfg: Membership.Config, c: Setup, net: map<string, Prober>, s: Membership.State, x: string,
                        snd: Delivery.Sender, y: string, r: Delivery.Receiver) {
    x in net && y in net && x in s && y in s &&
    snd.c == c && snd.p == net[x] && snd.topic == cfg.topic && (snd.clock.Some? <==> cfg.params.orderEnabled) &&
      snd.codec.RoundTrips() &&
    r.c == c && r.codec == snd.codec && r.keys == net[y].keys && r.filters == s[y].agent.filters &&
    (cfg.topic in r.tsMap <==> cfg.params.orderEnabled)
  }

  /** At quiescence of any run, every other member is a settled subscriber of a publisher. */
  lemma SubscribersAreSettled(cfg: Membership.Config, states: seq<Membership.State>, events: seq<Membership.Event>,
                              i: nat, c: Setup, net: map<string, Prober>, x: string, snd: Delivery.Sender, y: string,
                                r: Delivery.Receiver)
    requires Membership.Run(cfg, states, events) && i < |states| && Membership.Quiescent(states[i])
    requires Plain(cfg.topic) && forall l :: l in cfg.agents ==> Plain(l)
    requires Network(c, net) && cfg == GroupConfig(cfg.h, cfg.topic, cfg.params, c, net)
    requires Takes(cfg, c, net, states[i], x, snd, y, r) && x != y
    requires x in Membership.Roster(states[i]) && Membership.Roster(states[i])[x].publisher &&
             y in Membership.Roster(states[i])
    ensures Delivery.Settled(snd, cfg.params.mode, states[i][x].agent.subs, y, r)
    ensures states[i][x].agent.subs.Keys == Membership.Roster(states[i]).Keys - {x}
  {
    var s, roster := states[i], Membership.Roster(states[i]);
    Membership.RunKeepsInv(cfg, states, events, i);
    Membership.OnRoster(cfg, s, x);
    Membership.OnRoster(cfg, s, y);
    Membership.SettledView(cfg, s, x);
    Membership.IndexesAgree(cfg, states, events, i, x);
    var subs := s[x].agent.subs;
    assert Handshake.Connected(c, net[x], net[y]);
    FilterIsSet(cfg, states, events, i, x, y);
    forall l | l in subs ensures Plain(l) && l in snd.p.keys && ValidPair(c, snd.p.keys[l]) && l in net &&
      subs[l] == net[l].keys[x].pub {
      assert l in roster && l in net;
      assert Handshake.Connected(c, net[x], net[l]);
      IndexKeyIsExpected(cfg, c, net, x, l, subs[l]);
    }
  }

  lemma FilterIsSet(cfg: Membership.Config, states: seq<Membership.State>, events: seq<Membership.Event>, i: nat,
                    x: string, y: string)
    requires Membership.Run(cfg, states, events) && i < |states| && Membership.Quiescent(states[i])
    requires Plain(cfg.topic) && forall l :: l in cfg.agents ==> Plain(l)
    requires y in states[i] && states[i][y].agent.group.Some? && x != y
    requires x in Membership.Roster(states[i]) && Membership.Roster(states[i])[x].publisher
    ensures DataTopic(cfg.params.mode, cfg.topic, x, y) in states[i][y].agent.filters
  {
    var t := DataTopic(cfg.params.mode, cfg.topic, x, y);
    Membership.FiltersConserved(cfg, states, events, i, y, t);
    assert x in OtherPublishers(Membership.Roster(states[i]), y);
    if cfg.params.mode == SingleQueue {
      assert |OtherPublishers(Membership.Roster(states[i]), y)| > 0;
    }
  }

  /** A message that a publisher sends at quiescence of any run is accepted exactly once by every other member of
      the true roster, with the exact text, the group and the sender's label, in either queue mode and whatever
      the order in which the frames are published. */
  lemma MessageReachesEveryMember(cfg: Membership.Config, states: seq<Membership.State>, events: seq<Membership.Event>,
                                  i: nat,
                                  c: Setup, net: map<string, Prober>, x: string, snd: Delivery.Sender, y: string,
                                    r: Delivery.Receiver, order: seq<string>, msg: bytes)
    requires Membership.Run(cfg, states, events) && i < |states| && Membership.Quiescent(states[i])
    requires Plain(cfg.topic) && forall l :: l in cfg.agents ==> Plain(l)
    requires Network(c, net) && cfg == GroupConfig(cfg.h, cfg.topic, cfg.params, c, net)
    requires Takes(cfg, c, net, states[i], x, snd, y, r) && x != y
    requires x in Membership.Roster(states[i]) && Membership.Roster(states[i])[x].publisher &&
             y in Membership.Roster(states[i])
    requires NoDuplicates(order) && forall l :: l in order <==> l in states[i][x].agent.subs
    requires forall l :: l in order ==> l in snd.p.keys
    ensures Delivery.Accepted(r, Delivery.Frames(snd, cfg.params.mode, states[i][x].agent.subs, order, msg))
              == [Delivery.Delivered(x, cfg.topic, msg)]
  {
    SubscribersAreSettled(cfg, states, events, i, c, net, x, snd, y, r);
    SettledSubscriberAccepts(snd, cfg.params.mode, states[i][x].agent.subs, order, y, r, msg);
  }

  lemma SettledSubscriberAccepts(snd: Delivery.Sender, mode: GroupMode, subs: map<string, Key>, order: seq<string>,
                                 y: string, r: Delivery.Receiver, msg: bytes)
    requires Delivery.Settled(snd, mode, subs, y, r) && y in subs
    requires NoDuplicates(order) && forall l :: l in order <==> l in subs
    requires forall l :: l in order ==> l in snd.p.keys
    ensures Delivery.Accepted(r, Delivery.Frames(snd, mode, subs, order, msg)) ==
            [Delivery.Delivered(snd.p.name, snd.topic, msg)]
  {
    Delivery.AcceptedFrames(snd, mode, subs, order, y, r, msg);
    assert y in order;
  }
}
