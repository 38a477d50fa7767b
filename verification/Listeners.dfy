/** The two listeners of `pubsub/transport/zmq.go`: what they do with the internal connect, subscribe and
    authenticate messages, and what they reply. */
module Listeners {
  import opened Base64
  import opened Models
  import opened Topics
  import opened Validator
  import opened GroupStore
  import opened DataFilters

  datatype Role = RolePublisher | RoleSubscriber | RoleNull

  /** Every message names the ids of its two reply channels. */
  datatype Internal =
    | Connect(connect: bool, role: Role, initiator: string, topic: string, peer: Member, stateId: string,
              dataId: string)
    | Subscribe(subscribe: bool, unsubAll: bool, myLabel: string, topic: string, state: bool, data: bool, peer: Member,
                stateId: string, dataId: string)
    | Authenticate(name: string, servrPubKey: string, clientPubKey: string, data: bool, stateId: string, dataId: string)

  datatype Reply = Reply(id: string, failed: bool)

  /** Which operations of a socket work: connecting to the endpoint of a message's peer, the subscription,
      unsubscription of a state topic or authentication a message asks for, and, by label, unsubscribing from a
      publisher's data and disconnecting from a member. */
  datatype Socket = Socket(dials: iset<Internal>, works: iset<Internal>, unsubscribes: iset<string>,
                           hangsUp: iset<string>)

  // -------------------------------------------------------------------------------- state listener

  /** `topicExists`. */
  predicate TopicExists(groups: Groups, topic: string) {
    |Existing(groups, topic).members| >= 2
  }

  /** The state listener replies with an error. */
  ghost predicate StateFails(groups: Groups, msg: Internal, sock: Socket) {
    match msg
    case Connect(connect, _, _, topic, peer, _, _) =>
      if connect then msg !in sock.dials || (!TopicExists(groups, topic) && msg !in sock.works)
        else peer.name !in sock.hangsUp
    case Subscribe(subscribe, _, myLabel, topic, state, _, _, _, _) =>
      state && !subscribe &&
      (msg !in sock.works || exists l :: l in Existing(groups, topic).members && l != myLabel && l !in sock.hangsUp)
    case Authenticate(_, _, _, _, _, _) => msg !in sock.works
  }

  /** The state subscriptions after a message. */
  function StateFilters(groups: Groups, msg: Internal, sock: Socket, filters: multiset<string>): multiset<string> {
    match msg
    case Connect(connect, _, _, topic, _, _, _) =>
      if connect && msg in sock.dials && !TopicExists(groups, topic) && msg in sock.works
      then filters + multiset{StateTopic(topic)} else filters
    case Subscribe(subscribe, _, _, topic, state, _, _, _, _) =>
      if state && !subscribe && msg in sock.works then filters - multiset{StateTopic(topic)} else filters
    case Authenticate(_, _, _, _, _, _) => filters
  }

  /** The state SUB socket, with its counted subscriptions. */
  class StateListener {
    const gs: Store
    var filters: multiset<string>

    constructor (gs: Store)
      ensures this.gs == gs && filters == multiset{}
    {
      this.gs := gs;
      filters := multiset{};
    }

    /** `connectState` and `subscribeStatus`: a topic with two members is taken to be subscribed already. */
    method ConnectState(msg: Internal, sock: Socket) returns (failed: bool)
      requires gs.Valid() && msg.Connect? && msg.connect
      modifies this
      ensures failed <==> StateFails(gs.groups, msg, sock)
      ensures filters == StateFilters(gs.groups, msg, sock, old(filters))
      ensures var known := msg.topic in gs.groups && |gs.groups[msg.topic].members| >= 2;
              (failed <==> msg !in sock.dials || (!known && msg !in sock.works)) &&
              filters == if msg in sock.dials && !known && msg in sock.works
                then old(filters) + multiset{StateTopic(msg.topic)} else old(filters)
    {
      if msg !in sock.dials {
        return true;
      }
      var members := gs.Membrs(msg.topic);
      if msg.topic in gs.groups {
        ListLength(members, gs.groups[msg.topic].members);
      }
      if |members| >= 2 {
        return false;
      }
      if msg !in sock.works {
        return true;
      }
      filters := filters + multiset{StateTopic(msg.topic)};
      failed := false;
    }

    /** `unsubscribeState`: unsubscribes once and disconnects from the other members up to the first failure. */
    method UnsubscribeState(msg: Internal, sock: Socket) returns (failed: bool)
      requires gs.Valid() && msg.Subscribe? && msg.state && !msg.subscribe
      modifies this
      ensures failed <==> StateFails(gs.groups, msg, sock)
      ensures filters == StateFilters(gs.groups, msg, sock, old(filters))
      ensures failed <==>
                msg !in sock.works ||
                (msg.topic in gs.groups &&
                 exists l :: l in gs.groups[msg.topic].members && l != msg.myLabel && l !in sock.hangsUp)
      ensures filters == if msg in sock.works then old(filters) - multiset{StateTopic(msg.topic)} else old(filters)
    {
      if msg !in sock.works {
        return true;
      }
      filters := filters - multiset{StateTopic(msg.topic)};
      var members := gs.Membrs(msg.topic);
      failed := HangUp(msg.myLabel, members, sock);
      if msg.topic in gs.groups {
        OthersInListing(members, gs.groups[msg.topic].members, msg.myLabel, sock);
      }
    }

    method HangUp(me: string, members: seq<Member>, sock: Socket) returns (failed: bool)
      ensures failed <==> exists k :: 0 <= k < |members| && members[k].name != me && members[k].name !in sock.hangsUp
    {
      for i := 0 to |members|
        invariant forall k :: 0 <= k < i ==> members[k].name == me || members[k].name in sock.hangsUp
      {
        if members[i].name != me && members[i].name !in sock.hangsUp {
          return true;
        }
      }
      failed := false;
    }

    /** `listenState`: in every branch one reply on the state channel, a failure exactly when the branch performs
        an operation on the socket and it fails. */
    method HandleState(msg: Internal, sock: Socket) returns (replies: seq<Reply>)
      requires gs.Valid()
      modifies this
      ensures replies == [Reply(msg.stateId, StateFails(gs.groups, msg, sock))]
      ensures filters == StateFilters(gs.groups, msg, sock, old(filters))
      ensures msg.Connect? && !msg.connect ==>
                replies == [Reply(msg.stateId, msg.peer.name !in sock.hangsUp)] && filters == old(filters)
      ensures msg.Subscribe? && (msg.subscribe || !msg.state) ==>
                replies == [Reply(msg.stateId, false)] && filters == old(filters)
      ensures msg.Authenticate? ==> replies == [Reply(msg.stateId, msg !in sock.works)] && filters == old(filters)
    {
      replies := [];
      match msg
      case Connect(connect, _, _, _, peer, stateId, _) =>
        if !connect {
          if peer.name !in sock.hangsUp { // disconnectStatus
            return replies + [Reply(stateId, true)];
          }
          return replies + [Reply(stateId, false)];
        }
        var failed := ConnectState(msg, sock);
        if failed {
          return replies + [Reply(stateId, true)];
        }
        replies := replies + [Reply(stateId, false)];
      case Subscribe(subscribe, _, _, _, state, _, _, stateId, _) =>
        if !state {
          return replies + [Reply(stateId, false)];
        }
        if !subscribe {
          var failed := UnsubscribeState(msg, sock);
          if failed {
            return replies + [Reply(stateId, true)];
          }
        }
        replies := replies + [Reply(stateId, false)];
      case Authenticate(_, _, _, _, stateId, _) =>
        if msg !in sock.works { // setPeerStateAuthn
          return replies + [Reply(stateId, true)];
        }
        replies := replies + [Reply(stateId, false)];
    }
  }

  lemma OthersInListing(grp: seq<Member>, members: map<string, Member>, me: string, sock: Socket)
    requires Lists(grp, members) && Keyed(members)
    ensures (exists k :: 0 <= k < |grp| && grp[k].name != me && grp[k].name !in sock.hangsUp) <==>
            (exists l :: l in members && l != me && l !in sock.hangsUp)
  {
    if l :| l in members && l != me && l !in sock.hangsUp {
      assert members[l] in grp;
      var k :| 0 <= k < |grp| && grp[k] == members[l];
      assert grp[k].name == l;
    }
    if k :| 0 <= k < |grp| && grp[k].name != me && grp[k].name !in sock.hangsUp {
      assert grp[k] in grp;
    }
  }

  // --------------------------------------------------------------------------------- data listener

  /** Looking up the mode of a topic without parameters dereferences nil. */
  predicate ModeKnown(groups: Groups, topic: string) {
    topic in groups && groups[topic].params.Some?
  }

  /** Unsubscribing from a member's data fails: the member is another publisher, and the socket refuses to
      unsubscribe, or to disconnect after that. */
  predicate Fails(m: Member, me: string, sock: Socket) {
    Wanted(m, me) && !(m.name in sock.unsubscribes && m.name in sock.hangsUp)
  }

  /** Some member's data has to be unsubscribed from. */
  ghost predicate AnyWanted(members: map<string, Member>, me: string) {
    exists l :: l in members && Wanted(members[l], me)
  }

  ghost predicate NoneFails(grp: seq<Member>, me: string, sock: Socket) {
    forall k :: 0 <= k < |grp| ==> !Fails(grp[k], me, sock)
  }

  lemma NextFails(grp: seq<Member>, i: nat, me: string, sock: Socket)
    requires i < |grp| && NoneFails(grp[..i], me, sock)
    ensures if Fails(grp[i], me, sock) then !NoneFails(grp, me, sock) else NoneFails(grp[..i + 1], me, sock)
  {
  }

  ghost predicate AnyFails(members: map<string, Member>, me: string, sock: Socket) {
    exists l :: l in members && Fails(members[l], me, sock)
  }

  /** The data listener panics in a mode lookup. */
  ghost predicate DataPanics(groups: Groups, msg: Internal, sock: Socket) {
    match msg
    case Connect(connect, role, _, topic, peer, _, _) =>
      connect && peer.publisher && msg in sock.dials && role != RoleNull && !ModeKnown(groups, topic)
    case Subscribe(subscribe, unsubAll, myLabel, topic, _, data, _, _, _) =>
      !subscribe && data && !ModeKnown(groups, topic) &&
      (unsubAll ==> AnyWanted(Existing(groups, topic).members, myLabel))
    case Authenticate(_, _, _, _, _, _) => false
  }

  /** The data listener replies with an error. */
  ghost predicate DataFails(groups: Groups, msg: Internal, sock: Socket) {
    match msg
    case Connect(connect, role, _, _, peer, _, _) =>
      connect && peer.publisher && (msg !in sock.dials || role == RoleNull || msg !in sock.works)
    case Subscribe(subscribe, unsubAll, myLabel, topic, _, data, peer, _, _) =>
      !subscribe && data &&
      if unsubAll then AnyFails(Existing(groups, topic).members, myLabel, sock)
      else !(peer.name in sock.unsubscribes && peer.name in sock.hangsUp)
    case Authenticate(_, _, _, data, _, _) => data && msg !in sock.works
  }

  /** The filters of some of the members, each counted once, are gone. */
  ghost predicate PartlyRemoved(before: multiset<string>, after: multiset<string>, mode: GroupMode, topic: string,
                                members: map<string, Member>, me: string) {
    exists part: seq<Member> ::
      UniqueLabels(part) && (forall m :: m in part ==> m.name in members && members[m.name] == m) &&
      after == before - FiltersOf(mode, topic, part, me)
  }

  /** The filters after a connect message. */
  function ConnectFilters(groups: Groups, msg: Internal, sock: Socket, filters: multiset<string>): multiset<string>
    requires msg.Connect?
  {
    if msg.connect && msg.peer.publisher && msg in sock.dials && msg.role != RoleNull && msg in sock.works &&
       ModeKnown(groups, msg.topic)
    then
      var pub, sub := if msg.role == RolePublisher then msg.initiator else msg.peer.name,
                      if msg.role == RolePublisher then msg.peer.name else msg.initiator;
      filters + multiset{DataTopic(groups[msg.topic].params.value.mode, msg.topic, pub, sub)}
    else filters
  }

  /** What a message that does not make the listener panic does to the filters: those of a removal that fails half
      way through the members are gone for a part of them. */
  ghost predicate DataEffect(groups: Groups, msg: Internal, sock: Socket, before: multiset<string>,
                             after: multiset<string>) {
    match msg
    case Connect(_, _, _, _, _, _, _) => after == ConnectFilters(groups, msg, sock, before)
    case Subscribe(subscribe, unsubAll, myLabel, topic, _, data, peer, _, _) =>
      if subscribe || !data || !ModeKnown(groups, topic) then after == before
      else
        var g := groups[topic];
        var mode := g.params.value.mode;
        if !unsubAll then
          after == if peer.name in sock.unsubscribes
            then before - multiset{DataTopic(mode, topic, peer.name, myLabel)} else before
        else
          PartlyRemoved(before, after, mode, topic, g.members, myLabel) &&
          (!DataFails(groups, msg, sock) && Keyed(g.members) ==>
           after == before - PeerFilters(mode, topic, g.members, myLabel))
    case Authenticate(_, _, _, _, _, _) => after == before
  }

  /** Removing one more filter. */
  lemma FiltersStep(start: multiset<string>, mode: GroupMode, topic: string, members: seq<Member>, i: nat, me: string)
    requires i < |members|
    ensures FiltersOf(mode, topic, members[..i + 1], me) ==
            FiltersOf(mode, topic, members[..i], me) + FilterFor(mode, topic, members[i], me)
    ensures start - FiltersOf(mode, topic, members[..i + 1], me) ==
              start - FiltersOf(mode, topic, members[..i], me) - FilterFor(mode, topic, members[i], me)
  {
    assert members[..i + 1][..i] == members[..i];
  }

  lemma PartOfListing(start: multiset<string>, mode: GroupMode, topic: string, grp: seq<Member>, i: nat,
                      members: map<string, Member>, me: string)
    requires Lists(grp, members) && i <= |grp|
    ensures PartlyRemoved(start, start - FiltersOf(mode, topic, grp[..i], me), mode, topic, members, me)
  {
    var part := grp[..i];
    assert UniqueLabels(part) && forall m :: m in part ==> m in grp;
  }

  lemma FailedInListing(grp: seq<Member>, members: map<string, Member>, me: string, sock: Socket)
    requires Lists(grp, members) && Keyed(members)
    ensures NoneFails(grp, me, sock) <==> !AnyFails(members, me, sock)
    ensures (exists k :: 0 <= k < |grp| && Wanted(grp[k], me)) <==> AnyWanted(members, me)
  {
    forall l | l in members ensures exists k :: 0 <= k < |grp| && grp[k] == members[l] {
      assert members[l] in grp;
    }
    forall k | 0 <= k < |grp| ensures grp[k].name in members && members[grp[k].name] == grp[k] {
      assert grp[k] in grp;
    }
  }

  /** The data SUB socket, with its counted filters, and the group store it looks modes and members up in. */
  class DataListener {
    const gs: Store
    var filters: multiset<string>

    constructor (gs: Store)
      ensures this.gs == gs && filters == multiset{}
    {
      this.gs := gs;
      filters := multiset{};
    }

    /** `DataTopic`. */
    method DataTopicOf(topic: string, pub: string, sub: string) returns (t: Call<string>)
      ensures t ==
              if ModeKnown(gs.groups, topic)
                then Returned(DataTopic(gs.groups[topic].params.value.mode, topic, pub, sub)) else Panicked
    {
      if topic !in gs.groups || gs.groups[topic].params.None? {
        return Panicked;
      }
      t := Returned(DataTopic(gs.groups[topic].params.value.mode, topic, pub, sub));
    }

    /** `connectData`: an unknown role is an error, found after connecting but before subscribing. */
    method ConnectData(msg: Internal, sock: Socket) returns (failed: Call<bool>)
      requires msg.Connect? && msg.connect
      modifies this
      ensures failed == if DataPanics(gs.groups, msg, sock) then Panicked else Returned(DataFails(gs.groups, msg, sock))
      ensures filters == ConnectFilters(gs.groups, msg, sock, old(filters))
      ensures !msg.peer.publisher ==> failed == Returned(false) && filters == old(filters)
      ensures msg.peer.publisher && (msg !in sock.dials || msg.role == RoleNull) ==>
                failed == Returned(true) && filters == old(filters)
      ensures msg.peer.publisher && msg in sock.dials && msg.role != RoleNull ==>
                if msg.topic in gs.groups && gs.groups[msg.topic].params.Some? then
                  var mode := gs.groups[msg.topic].params.value.mode;
                  failed == Returned(msg !in sock.works) &&
                  filters == old(filters) +
                    if msg !in sock.works then multiset{}
                    else if msg.role == RolePublisher
                      then multiset{DataTopic(mode, msg.topic, msg.initiator, msg.peer.name)}
                    else multiset{DataTopic(mode, msg.topic, msg.peer.name, msg.initiator)}
                else failed == Panicked && filters == old(filters)
    {
      if msg.peer.publisher {
        if msg !in sock.dials {
          return Returned(true);
        }
        var pub, sub;
        match msg.role {
          case RolePublisher => pub, sub := msg.initiator, msg.peer.name;
          case RoleSubscriber => pub, sub := msg.peer.name, msg.initiator;
          case RoleNull => return Returned(true);
        }
        var dt := DataTopicOf(msg.topic, pub, sub);
        if dt.Panicked? {
          return Panicked;
        }
        if msg !in sock.works {
          return Returned(true);
        }
        filters := filters + multiset{dt.value};
      }
      failed := Returned(false);
    }

    /** `unsubscribeAllData`: removes one filter for every other publisher in the view, up to the first failure. */
    method UnsubscribeAllData(me: string, topic: string, sock: Socket) returns (failed: Call<bool>)
      requires gs.Valid()
      modifies this
      ensures var members := Existing(gs.groups, topic).members;
              failed == if !ModeKnown(gs.groups, topic) && AnyWanted(members, me) then Panicked
                        else Returned(AnyFails(members, me, sock))
      ensures failed == Panicked <==>
                topic in gs.groups && gs.groups[topic].params.None? &&
                exists l :: l in gs.groups[topic].members && l != me && gs.groups[topic].members[l].publisher
      ensures failed == Returned(true) <==>
                topic in gs.groups && gs.groups[topic].params.Some? &&
                exists l :: l in gs.groups[topic].members && l != me && gs.groups[topic].members[l].publisher &&
                            !(l in sock.unsubscribes && l in sock.hangsUp)
      ensures !ModeKnown(gs.groups, topic) ==> filters == old(filters)
      ensures ModeKnown(gs.groups, topic) ==>
                var members := gs.groups[topic].members;
                var mode := gs.groups[topic].params.value.mode;
                (failed == Returned(false) ==> filters == old(filters) - PeerFilters(mode, topic, members, me)) &&
                PartlyRemoved(old(filters), filters, mode, topic, members, me)
    {
      var members := gs.Membrs(topic);
      if topic !in gs.groups {
        return Returned(false);
      }
      FailedInListing(members, gs.groups[topic].members, me, sock);
      if gs.groups[topic].params.None? {
        failed := UnsubscribeUnknown(me, topic, members, sock);
        return;
      }
      var failure;
      ghost var part;
      failure, part := UnsubscribeListed(me, topic, members, sock);
      FiltersOfListing(gs.groups[topic].params.value.mode, topic, members, gs.groups[topic].members, me);
      PartOfListing(old(filters), gs.groups[topic].params.value.mode, topic, members, part, gs.groups[topic].members,
                    me);
      assert members[..|members|] == members;
      failed := Returned(failure);
    }

    /** The loop on a topic without parameters: the first other publisher makes the mode lookup panic. */
    method UnsubscribeUnknown(me: string, topic: string, members: seq<Member>, sock: Socket)
      returns (failed: Call<bool>)
      requires !ModeKnown(gs.groups, topic)
      modifies this
      ensures failed == if exists k :: 0 <= k < |members| && Wanted(members[k], me) then Panicked else Returned(false)
      ensures filters == old(filters)
    {
      for i := 0 to |members|
        invariant filters == old(filters)
        invariant forall k :: 0 <= k < i ==> !Wanted(members[k], me)
      {
        if members[i].name != me && members[i].publisher {
          failed := UnsubscribeData(me, topic, members[i], sock);
          return;
        }
      }
      failed := Returned(false);
    }

    /** The loop on a topic with parameters; `part` counts the members whose filters are gone. */
    method UnsubscribeListed(me: string, topic: string, members: seq<Member>, sock: Socket)
      returns (failed: bool, ghost part: nat)
      requires ModeKnown(gs.groups, topic)
      modifies this
      ensures part <= |members| && (!failed ==> part == |members|)
      ensures filters == old(filters) - FiltersOf(gs.groups[topic].params.value.mode, topic, members[..part], me)
      ensures failed <==> !NoneFails(members, me, sock)
    {
      failed, part := false, 0;
      for i := 0 to |members|
        invariant part == i
        invariant filters == old(filters) - FiltersOf(gs.groups[topic].params.value.mode, topic, members[..i], me)
        invariant NoneFails(members[..i], me, sock)
      {
        NextFails(members, i, me, sock);
        failed, part := UnsubscribeNext(me, topic, members, i, sock, old(filters));
        if failed {
          return;
        }
      }
      assert members[..|members|] == members;
    }

    /** One round: the agent itself and members that do not publish are skipped. */
    method UnsubscribeNext(me: string, topic: string, members: seq<Member>, i: nat, sock: Socket,
                           ghost start: multiset<string>)
      returns (failed: bool, ghost part: nat)
      requires ModeKnown(gs.groups, topic) && i < |members|
      requires filters == start - FiltersOf(gs.groups[topic].params.value.mode, topic, members[..i], me)
      modifies this
      ensures i <= part <= i + 1 && (!failed ==> part == i + 1)
      ensures filters == start - FiltersOf(gs.groups[topic].params.value.mode, topic, members[..part], me)
      ensures failed <==> Fails(members[i], me, sock)
    {
      FiltersStep(start, gs.groups[topic].params.value.mode, topic, members, i, me);
      if members[i].name == me || !members[i].publisher {
        return false, i + 1;
      }
      var failure := UnsubscribeData(me, topic, members[i], sock);
      failed := failure.value;
      part := if members[i].name in sock.unsubscribes then i + 1 else i;
    }

    /** `unsubscribeData`: removes one filter for the departed publisher. */
    method UnsubscribeData(me: string, topic: string, m: Member, sock: Socket) returns (failed: Call<bool>)
      modifies this
      ensures failed ==
              if !ModeKnown(gs.groups, topic)
                then Panicked else Returned(!(m.name in sock.unsubscribes && m.name in sock.hangsUp))
      ensures filters == if ModeKnown(gs.groups, topic) && m.name in sock.unsubscribes
                         then old(filters) - multiset{DataTopic(gs.groups[topic].params.value.mode, topic, m.name, me)}
                           else old(filters)
    {
      var dt := DataTopicOf(topic, m.name, me);
      if dt.Panicked? {
        return Panicked;
      }
      if m.name !in sock.unsubscribes {
        return Returned(true);
      }
      filters := filters - multiset{dt.value};
      failed := Returned(m.name !in sock.hangsUp);
    }

    /** `listenData`: in every branch one reply on the data channel, with the effect of the branch on the filters. */
    method HandleData(msg: Internal, sock: Socket) returns (replies: Call<seq<Reply>>)
      requires gs.Valid()
      modifies this
      ensures replies == if DataPanics(gs.groups, msg, sock) then Panicked
                         else Returned([Reply(msg.dataId, DataFails(gs.groups, msg, sock))])
      ensures (msg.Connect? && !msg.connect) || (msg.Subscribe? && (msg.subscribe || !msg.data)) ||
              (msg.Authenticate? && !msg.data) ==>
                replies == Returned([Reply(msg.dataId, false)]) && filters == old(filters)
      ensures msg.Authenticate? && msg.data ==>
                replies == Returned([Reply(msg.dataId, msg !in sock.works)]) && filters == old(filters)
      ensures replies.Returned? ==> DataEffect(gs.groups, msg, sock, old(filters), filters)
    {
      match msg
      case Connect(connect, _, _, _, _, _, dataId) =>
        if connect {
          var failed := ConnectData(msg, sock);
          if failed.Panicked? {
            return Panicked;
          }
          if failed.value {
            return Returned([Reply(dataId, true)]);
          }
        }
        replies := Returned([Reply(dataId, false)]);
      case Subscribe(subscribe, unsubAll, myLabel, topic, _, data, peer, _, dataId) =>
        if !subscribe {
          if unsubAll && data {
            var failed := UnsubscribeAllData(myLabel, topic, sock);
            if failed.Panicked? {
              return Panicked;
            }
            if failed.value {
              return Returned([Reply(dataId, true)]);
            }
            return Returned([Reply(dataId, false)]);
          }
          if data {
            var failed := UnsubscribeData(myLabel, topic, peer, sock);
            if failed.Panicked? {
              return Panicked;
            }
            if failed.value {
              return Returned([Reply(dataId, true)]);
            }
          }
        }
        replies := Returned([Reply(dataId, false)]);
      case Authenticate(_, _, _, data, _, dataId) =>
        if !data {
          return Returned([Reply(dataId, false)]);
        }
        if msg !in sock.works { // setPeerDataAuthn
          return Returned([Reply(dataId, true)]);
        }
        replies := Returned([Reply(dataId, false)]);
    }
  }
}
