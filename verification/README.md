# Group membership, messaging and DID exchange: a verified model

The project models an agent that exchanges DID documents with its peers, forms groups over ZeroMQ publish/subscribe
sockets, and sends authenticated messages to the members of a group. It has three connected parts.

1. **View validation and the group store** (`MemberJson`, `Base64`, `Validator`, `GroupStore`, `SubscriberStore`,
   `JoinCheck`). An agent keeps a member map per topic with a cached checksum over the canonically ordered list. The
   loops, maps and buffers are methods, verified against functions; equal checksums are shown to mean equal views.
2. **The group protocol** (`Topics`, `DataFilters`, `Listeners`, `ControlPlane`, `LocalSteps`, `GroupAgent`,
   `Membership`, `Overlap`, `SerialJoin`, `OverlapRuns`, `Convergence`, `SerialRuns`, `Syncer`, `Causality`).
   `GroupAgent` carries out `Create`, `Join`, `Leave`, `Send` and the handlers on its stores, sockets and clocks; each
   method is proved equal to a function of `LocalSteps`, with what every failure leaves behind. `Membership` lets all
   agents take these steps in any order the serialised protocol allows, proves what every run keeps, and that no run
   gets stuck. `Overlap` drops the serialisation: a join is reading the list, the answers of the listed members, the
   check, entering and announcing, with any steps of other agents in between. It says what a passed check means then,
   and exactly when a joiner gets the true roster and when a departed member stays with it; `OverlapRuns` has
   histories that go wrong, `Convergence` the condition under which overlapping joins converge, and `SerialJoin` and
   `SerialRuns` show that the runs of the serialised protocol are a special case. `ControlPlane` is the request
   protocol between a requester, the connector and the two listeners; `Causality` is the Lamport clock over all runs.
3. **Handshake and envelope** (`Envelope`, `Keys`, `DidDoc`, `Prober`, `Handshake`, `Connections`, `Delivery`). The DID
   exchange of two agents in every interleaving, with the retry loop that covers a response overtaking the requester's
   own bookkeeping, packing and unpacking over abstract boxes, and how the exchanges of many agents add up to a network.
   `GroupMessaging` puts the three parts together: in a settled group a publisher's message is accepted by every other
   member exactly once, with the sender's label and the exact text.

`GoStrings` and `Models` hold what the others share.

## How the source is read

- A Go string is a sequence of code points; for valid UTF-8 their order is Go's byte order. Ciphertexts that travel as
  Go strings are byte sequences turned into characters one by one (`Delivery.Text`).
- Iterating over a Go map takes the keys in any order: the loops pick an arbitrary remaining key, so a result that the
  contracts determine does not depend on the order.
- A run-time panic is the result `Panicked`; a nil map entry and a Go error are `None` or an error value.
- SHA-256 is a function of 32 bytes given as a parameter. It is assumed not to collide on the texts a statement
  compares, never on all texts. Boxes, the AEAD, and the JSON and base58 codecs of envelopes and documents are
  parameters of which only the round trips of `Envelope.Lawful` and `Prober.LawfulSetup` are assumed. Random values,
  generated key pairs, identifiers and clock readings are arguments.
- The data socket is a counted multiset of filters; removing a filter that is not set removes nothing. A listener's
  inbox is a lossless queue.
- `int64` clocks wrap around. Timestamps follow causality exactly in the runs in which no send increments the largest
  `int64` (`Causality.OrderedIffNoWraps`); readings that stay one unit per event below it ensure that
  (`Causality.HeadroomPreventsWraps`).

## Hypotheses of the main results

- **Serialised joins.** A join starts when the active statuses of the previous one have been processed, its acceptor has
  processed every status, and none is on its way to or from the joiner. Leaves and deliveries interleave freely, statuses
  are delivered in any order, and one that reaches an agent without the group is dropped: having left, it has
  disconnected from the members' endpoints, even if a state filter remains set (if it processed one,
  `GroupAgent.GroupAgent.OnStatus` says what would come of it).
- **Without serialisation** (`Overlap`) an agent does one operation at a time, and no status that would empty its
  receiver's group is processed. The consistency check then compares what each member held when it answered, and no
  more (`Overlap.CheckedMembersHeldTheView`): a member that answers and departs before the joiner enters passes it and
  stays in the joiner's view for good (`OverlapRuns.DepartureAfterCheckStays`). A joiner gets the true roster if and only
  if the list it read gives the roster of the moment it enters (`Overlap.JoinerHoldsRosterIff`), and it loses a member
  that departs later if and only if that member has processed the joiner's status by then
  (`Overlap.DepartedUnawareStaysIff`). If every list does give the roster and every leaver is known to all and knows all,
  overlapping joins converge (`Convergence.OrderlyHistoriesConverge`), as in every serialised run
  (`SerialRuns.SerialisedRunsAreOrderly`); `OverlapRuns.OverlappingJoinsDiverge` is a history
  that ends with two joiners apart.
- **One membership epoch** for clocks: joining a topic again resets its clock.
- **Names** without colons and spaces, where topics are parsed or matched.
- **Fresh exchange identifiers and distinct connection keys** per handshake, and different non-empty labels.
- **Non-empty groups** for checksums: the buffer of `Calculate` is sized from the JSON text. `Validator.Calculate`
  states the panic, `GroupStore.Store.DeleteMembr` exactly when a group store operation meets it, and
  `Membership.StatusKeepsViewPopulated` that no status of a run does.

Four things a reader of the code may not expect. `Verify` returns the members that deviate from a strict majority if and
only if all of them hold one other hash (`Validator.MajorityDeviatorsIff`); when they hold several, it returns a smallest
class, as its comment says (`Validator.DeviatorsMayBeSplit`), and without a majority it still returns a smallest class.
`message` is strict except when the clock reading equals the stored value (`Causality.SendIsStrict`,
`Causality.EqualReadingsTie`). If the state side of a request fails, its requester returns without taking the data reply,
and the data listener blocks for good (`ControlPlane.FailureBlocksDataListener`). Prefix filters also let through frames
for a subscriber whose name extends the own one (`Topics.MultipleQueueMatch`); only the envelope keeps those out
(`Prober.ForeignIsRejected`).

## Model

| member | source | states |
|---|---|---|
| `MemberJson.EncodeInjective` | pubsub/validator/init.go:14 | The JSON text of a member list determines the list: no two lists of records share an encoding, whatever characters their fields hold. |
| `MemberJson.EncodeLength` | pubsub/validator/init.go:19-24 | The text has the 44 characters that the base64 of a 32-byte digest needs exactly when the list is not empty. |
| `MemberJson.PlainMember` | pubsub/validator/init.go:14 | The JSON text of one member whose fields need no escapes, character by character. |
| `MemberJson.EscapedCharacter` | pubsub/validator/init.go:14 | The escape of every character that is not written as it is, HTML characters and line separators included. |
| `MemberJson.EscapedAppend` | pubsub/validator/init.go:14 | A string literal is the concatenation of the literals of its parts. |
| `MemberJson.EncodeAppend` | pubsub/validator/init.go:14 | The text of a list is that of its parts joined by a comma. |
| `Base64.EncodeInto` | pubsub/validator/init.go:21-22 | Writing base64 into a buffer fills exactly the encoded length and leaves the rest of the buffer alone. |
| `Base64.EncodeTrimmed` | didcomm/did/handler.go:23-31 | Encoding into a zeroed buffer and trimming NULs gives exactly the encoding if it fits, and panics if and only if it does not. |
| `Base64.RoundTrip` | prober/agent.go:314-322 | Decoding an encoding returns the bytes, for every byte string (section 4 of RFC 4648). |
| `Base64.Alphabet` | pubsub/validator/init.go:22 | The symbols are those of the standard alphabet, and no other character is a digit. |
| `Base64.EncodeQuantum` | pubsub/validator/init.go:22 | Four characters stand for the 6-bit digits of three bytes as one number, and `=` for what is missing. |
| `Base64.DecodableIff` | prober/agent.go:314-322 | A text decodes if and only if, line breaks apart, it consists of digits in groups of four, with one or two `=` at the end at most. |
| `Base64.ForeignCharacter` | prober/agent.go:314-322 | Any other character makes decoding fail. |
| `GoStrings.LessIff` | pubsub/validator/init.go:36 | The string order: a proper prefix comes first, otherwise the smaller character where the two first differ. |
| `GoStrings.SplitWhole` | pubsub/transport/zmq.go:260-265 | A text without the separator is not split. |
| `Validator.Order` | pubsub/validator/init.go:30-47 | The nested loops give, for each label in sorted order, the first record with that label; for unique labels a permutation in which each label is a proper prefix of the later ones or has the smaller character where they first differ. |
| `Validator.OrderedFirstOccurrences` | pubsub/validator/init.go:30-47 | With duplicates the length and the labels with their counts are kept, sorted, and each entry is the first record of its label. |
| `Validator.OrderedPermutation` | pubsub/validator/init.go:30-47 | For unique labels the result is a permutation, strictly ascending by label, character by character. |
| `Validator.OrderedCanonical` | pubsub/validator/init.go:27-47 | Any two listings of the same members are ordered into the same list, whatever the map iteration or join order. |
| `Validator.Calculate` | pubsub/validator/init.go:13-25 | The checksum is the base64 of the digest of the ordered list, with nothing lost to the buffer; it panics if and only if the list is empty. |
| `Validator.ChecksumInjective` | pubsub/validator/init.go:13-25 | Without a digest collision, lists with equal checksums have the same ordered list. |
| `Validator.ChecksumOfAnyListing` | pubsub/validator/init.go:13-25 | Every listing of a member map gives the same checksum. |
| `Validator.EqualChecksumsEqualViews` | pubsub/validator/init.go:13-25 | Two member maps have equal checksums if and only if they are equal. |
| `Validator.Verify` | pubsub/validator/init.go:70-94 | Reports ok if and only if all hashes are equal; otherwise returns exactly the members with some one hash, and no hash has fewer members, for every iteration order. |
| `Validator.ReportedAreAMinority` | pubsub/validator/init.go:67-94 | What is reported is not empty, at most half of the members, and never includes the holder of a hash with a strict majority. |
| `Validator.TwoHashesReportMinority` | pubsub/validator/init.go:67-94 | With exactly two hashes of different support, the reported members are the complement of the majority. |
| `Validator.MajorityDeviatorsIff` | pubsub/validator/init.go:67-94 | When a strict majority holds one hash, the report is everybody else if and only if the others all hold one other hash. |
| `Validator.DeviatorsMayBeSplit` | pubsub/validator/init.go:67-94 | With three of five members agreeing and two deviating differently, either of the two alone is a report that the loops may return. |
| `Validator.ValidJoin` | pubsub/validator/init.go:52-65 | Enters the checksum of the joined set for the acceptor, overwriting its answer, and accepts if and only if all hashes are equal. |
| `GroupStore.Store.AddMembrs` | pubsub/stores/group.go:29-56 | Merges the members, later records winning, refreshes the checksum and leaves the other topics alone; panics if and only if the group stays empty. |
| `GroupStore.Store.DeleteMembr` | pubsub/stores/group.go:58-78 | Removes one member and refreshes the checksum; panics if and only if nobody else is left. |
| `GroupStore.Store.SetParams` | pubsub/stores/group.go:131-145 | Sets valid parameters, keeping the members; refuses an invalid mode and then changes nothing. |
| `GroupStore.MergedRecords` | pubsub/stores/group.go:29-56 | Adding members keeps all labels, with the last record of each added one. |
| `GroupStore.Store.Membrs` | pubsub/stores/group.go:97-113 | Lists each stored member exactly once. |
| `GroupStore.Store.Membr` | pubsub/stores/group.go:115-129 | Finds the stored member with the label, if there is one. |
| `GroupStore.ApplyValid` | pubsub/stores/group.go:29-145 | Every operation keeps every member under its own label and every cached checksum equal to that of its members. |
| `GroupStore.CachedChecksumIsCurrent` | pubsub/stores/group.go:176-180 | After any sequence of operations the cached checksum of a populated topic is the checksum of any listing of its members. |
| `GroupStore.EqualCachesEqualMembers` | pubsub/stores/group.go:176-180 | Two populated topics, of whatever stores and after whatever operations, cache equal checksums if and only if they have equal members. |
| `SubscriberStore.Subscriber.Add` | pubsub/stores/subscriber.go:35-42 | Sets one subscriber's key, creating the topic when it is missing, and changes nothing else. |
| `SubscriberStore.Subscriber.Delete` | pubsub/stores/subscriber.go:44-48 | Removes one subscriber of one topic; the topic itself and the others stay. |
| `SubscriberStore.Subscriber.DeleteTopic` | pubsub/stores/subscriber.go:50-54 | Removes a topic and nothing else. |
| `SubscriberStore.Subscriber.QueryByTopic` | pubsub/stores/subscriber.go:23-32 | Returns the topic's index, or an error for an unknown topic. |
| `Topics.MultipleQueueMatch` | pubsub/transport/zmq.go:515-520 | A multiple-queue filter lets a data frame through if and only if group and publisher are equal and its subscriber is a prefix of the frame's. |
| `Topics.SingleQueueMatch` | pubsub/transport/zmq.go:515-518 | A single-queue filter lets every data frame of its group through, and none of another. |
| `Topics.DataAndStateDoNotMatch` | pubsub/transport/zmq.go:515-524 | Data and state topics never match each other's frames, not even within one group. |
| `Topics.InternalDoesNotMatch` | pubsub/transport/definitions.go:3-10 | Internal topics never match group frames, nor group topics internal ones. |
| `Topics.FrameRoundTrip` | pubsub/transport/zmq.go:260-265 | Splitting a frame at its first space recovers topic and payload, whatever the payload holds. |
| `Topics.GroupNameRecovered` | pubsub/transport/zmq.go:526-534 | The group name is recovered from a data topic of either mode. |
| `Topics.PublisherOfTopic` | pubsub/transport/zmq.go:515-520 | In multiple-queue mode different publishers have different data topics for a subscriber. |
| `Topics.TopicTexts` | pubsub/transport/zmq.go:514-524 | The exact topic texts for both modes and for statuses. |
| `Topics.FewColonsNoGroup` | pubsub/transport/zmq.go:526-534 | A topic with fewer than two colons names no group. |
| `DataFilters.FiltersCount` | pubsub/transport/zmq.go:444-465 | How often the filters for a member list contain a topic is the number of other publishers it belongs to. |
| `DataFilters.PeerFiltersAdd` | pubsub/transport/zmq.go:365-387 | One more member adds exactly its filter to what an agent has to hold. |
| `DataFilters.PeerFiltersRemove` | pubsub/transport/zmq.go:487-498 | One member less takes exactly its filter away. |
| `DataFilters.MultipleQueueFilters` | pubsub/transport/zmq.go:444-465 | In multiple-queue mode each other publisher's filter is due exactly once and no other at all. |
| `DataFilters.SingleQueueFilters` | pubsub/transport/zmq.go:444-465 | In single-queue mode the shared filter is due as many times as there are other publishers. |
| `Listeners.StateListener.HandleState` | pubsub/transport/zmq.go:143-220 | Every branch for an internal message replies exactly once on the state channel, with an error if and only if one of the branch's operations is needed and fails; the state subscriptions change by exactly what succeeded. |
| `Listeners.StateListener.ConnectState` | pubsub/transport/zmq.go:352-363 | Connects, and subscribes to the state topic only while the group has fewer than two members; fails if and only if a step that is taken fails. |
| `Listeners.StateListener.UnsubscribeState` | pubsub/transport/zmq.go:467-483 | Unsubscribes once, and fails if and only if that or disconnecting from another member fails. |
| `Listeners.DataListener.HandleData` | pubsub/transport/zmq.go:253-335 | Every branch replies exactly once on the data channel, with an error if and only if an operation of the branch fails, or panics if and only if it looks up the mode of a topic without parameters; the filters change by exactly what succeeded. |
| `Listeners.DataListener.ConnectData` | pubsub/transport/zmq.go:365-387 | A publisher's filter is added once if connecting and subscribing both work; without a role it fails after connecting; a topic without parameters makes it panic if and only if it comes that far. |
| `Listeners.DataListener.UnsubscribeAllData` | pubsub/transport/zmq.go:444-465 | Removes exactly the filters of the other publishers in the view; fails if and only if some removal fails, and has then removed those of a part of the members; on a topic without parameters it panics if and only if there is another publisher. |
| `Listeners.DataListener.UnsubscribeData` | pubsub/transport/zmq.go:487-498 | Removes one occurrence of the departed publisher's filter, also when disconnecting fails afterwards. |
| `ControlPlane.RunKeepsInv` | pubsub/transport/zmq.go:79-114 | In every run the inboxes and held replies are the unanswered requests in order, and every requester is in the phase that the listeners' progress dictates. |
| `ControlPlane.RepliesAreUnique` | pubsub/processor.go:289-376 | A request never gets two replies on a channel, has exactly one state reply once past it, exactly one data reply if it finished after passing the state side, and reports success if and only if both sides worked. |
| `ControlPlane.StuckIffComplete` | pubsub/transport/zmq.go:536-553 | In a state without further steps all requests have completed and both listeners are free if and only if no state-side operation fails. |
| `ControlPlane.FailureBlocksDataListener` | pubsub/processor.go:300-314 | After a state-side failure the data listener ends up holding the reply of the first request that failed, and later requests that passed the state side wait for ever. |
| `ControlPlane.MeasureDecreases` | pubsub/processor.go:289-376 | Every step of requester, connector or listener decreases the measure. |
| `ControlPlane.RunsAreBounded` | pubsub/processor.go:289-376 | No run has more than six steps per request. |
| `ControlPlane.ServedRequestsComplete` | pubsub/transport/zmq.go:143-335 | For any requests with their messages, none of which makes the data listener panic: when nothing is left to do, all have completed if and only if the state listener's branch for each of them succeeds, and each reports success if and only if both listeners' branches do. |
| `JoinCheck.CheckJoin` | pubsub/agent.go:220-251 | The join is found valid if and only if every listed active member other than the acceptor answered with the list's checksum; an invalid one proceeds only without `JoinConsistent`. |
| `JoinCheck.AnswersHoldTheSameView` | pubsub/agent.go:220-251 | After a valid check every active member other than the acceptor answered, and held exactly the acceptor's member map when it did. |
| `JoinCheck.EqualViewsAreConsistent` | pubsub/agent.go:220-251 | Conversely, if every active member other than the acceptor answered and holds its member map, the check passes, for every listing and every digest. |
| `GroupAgent.GroupAgent.Request` | pubsub/processor.go:289-376 | A request succeeds if and only if both listeners' branches for its message do; the sockets change as the listeners change them even if it fails. |
| `GroupAgent.GroupAgent.Create` | pubsub/agent.go:129-158 | The creator's state is the created group of one, its invitation is kept and an ordered topic's clock starts; other topics are untouched; an invalid mode changes neither group, index, filters nor clocks. |
| `GroupAgent.GroupAgent.Answer` | pubsub/processor.go:88-126 | An unsubscribing peer loses its index entry. A member authenticates a joiner, answers with its publisher flag and cached checksum, connects and then indexes the key; each failure leaves exactly the stated part. |
| `GroupAgent.GroupAgent.ConnectMember` | pubsub/agent.go:325-345 | The joiner authenticates the member, sets a publisher's filter, and if it publishes itself indexes the group-join key of its peer entry; the outcome and what is left behind are exact, including the panic on a peer without that service. |
| `GroupAgent.ConnectingIff` | pubsub/agent.go:325-345 | Connecting succeeds if and only if the sockets authenticate the member with the keys it answered, server key first, and connect and subscribe to it, and a publisher finds its key. |
| `GroupAgent.JoinedAtEnd` | pubsub/agent.go:160-268 | The state in which an accepted join ends is the joined one that the membership protocol steps with. |
| `GroupAgent.GroupAgent.Join` | pubsub/agent.go:160-268 | An accepted joiner holds the acceptor's list and itself, one filter per listed active publisher, one state filter per listed active member, the index if it publishes, a fresh clock if the topic is ordered, and has told all listed members its record. It fails to connect if and only if some listed active member's authentication, with the keys it answered, or connection fails, and to agree if and only if a checksum differs; what each error leaves is exact. |
| `GroupAgent.GroupAgent.OnStatus` | pubsub/processor.go:166-174 | An active status adds the member, creating the topic if it is not stored; an inactive one removes its filter, index entry and record. Errors and panics have their exact conditions; the agent's own record and its state subscriptions stay. |
| `GroupAgent.GroupAgent.RemoveMember` | pubsub/processor.go:248-269 | Removing a departed member takes one filter if it was a publisher, its index entry and its record, and leaves the state subscriptions alone; it succeeds if and only if the sockets let go of that member, its keys go, and somebody is left. |
| `GroupAgent.RemovableIff` | pubsub/processor.go:248-269 | A member can be removed if and only if the state socket disconnects from it and, for a publisher, the data socket unsubscribes and disconnects from it; no other member matters. |
| `GroupAgent.GroupAgent.Send` | pubsub/agent.go:392-433 | A publishing member stamps the message once, advancing the topic's clock even if publishing then fails, and sends one frame per index entry, in some order; each refusal and failure has its condition. |
| `GroupAgent.GroupAgent.Leave` | pubsub/agent.go:600-626 | A leaver removes one state subscription, tells every other member the record it is registered with, no longer active, and gives up group, index and every data filter of the topic; it fails to unsubscribe if and only if a socket does not let go of another member; a leave that fails keeps the group and index, with exact conditions and filters. |
| `GroupAgent.UnsubscribingIff` | pubsub/transport/zmq.go:444-483 | Leaving unsubscribes if and only if both sockets unsubscribe and disconnect from all others concerned; it panics if and only if the topic has another publisher and no parameters. |
| `GroupAgent.GroupAgent.Notify` | pubsub/agent.go:553-588 | A status is the agent's record, with one copy sealed for every member but the agent itself; it is sent if and only if all of them can be sealed for and publishing works. |
| `LocalSteps.ConnectedFilters` | pubsub/agent.go:220-240 | The loop over the listed members sets exactly the filters of the active listed publishers, whatever inactive entries the list has. |
| `LocalSteps.ConnectedSubs` | pubsub/agent.go:220-240 | A publishing joiner indexes exactly the active listed members, each with its key; another joiner nobody. |
| `Membership.StepKeepsInv` | pubsub/agent.go:160-268 | Each create, join, leave and delivery keeps, for all agents at once, views, indexes, filters and checksums in step with the roster. |
| `Membership.RunKeepsInv` | pubsub/agent.go:129-268 | So does every run from the initial state. |
| `Membership.JoinKeepsInv` | pubsub/agent.go:184-268 | A join adds exactly the joiner to the roster and keeps every agent in order. |
| `Membership.LeaveKeepsInv` | pubsub/agent.go:600-626 | A leave removes exactly the leaver from the roster and keeps every agent in order, with other leaves still undelivered. |
| `Membership.DeliverKeepsInv` | pubsub/processor.go:128-180 | Processing a status, in whatever order and also at an agent that has left, keeps the roster and every agent in order. |
| `Membership.ViewsConverge` | pubsub/agent.go:600-626 | In every reachable state a member's view with its undelivered statuses applied, in any order, is the true roster. |
| `Membership.QuiescentViewsAgree` | pubsub/processor.go:166-174 | At quiescence all members hold the same view, the roster, and the same cached checksum. |
| `Membership.FiltersConserved` | pubsub/transport/zmq.go:365-387 | In every state an agent holds each filter exactly as often as the publishers in its view and on the roster make due (each filter once, or the shared one once per publisher), at quiescence as often as those on the roster do, and none once it is outside the group. |
| `Membership.FiltersFollowViews` | pubsub/processor.go:248-269 | In every state a member's filters are those of its view with the roster: it has a joiner's before processing the join and keeps a leaver's until processing the leave. |
| `Membership.OutsiderHoldsNothing` | pubsub/agent.go:600-626 | In every state, whatever is still to be delivered and whatever the names, an agent outside the group holds no data filter and no index entry. |
| `Membership.IndexesAgree` | pubsub/agent.go:334-342 | At quiescence a publisher's index names exactly the other members, each with the key of its own peer entry for the member or the key the member sent when it subscribed. |
| `Membership.JoinFoundEqualViews` | pubsub/agent.go:220-251 | In every serialised run, when a consistent join commits, every member the acceptor lists held exactly the acceptor's view. |
| `Membership.QuiescentJoinAccepted` | pubsub/agent.go:220-251 | At quiescence of any run every outside agent can join through every member, and no consistent join is turned away. |
| `Membership.StatusKeepsViewPopulated` | pubsub/processor.go:248-269 | No status of a run removes the receiver itself, so no checksum of an empty group is ever computed. |
| `Membership.Settles` | pubsub/processor.go:128-180 | No run gets stuck: from every state, processing the statuses on their way leads to one in which nothing is on its way, with the same roster. |
| `Membership.StatusIsDeliverable` | pubsub/processor.go:128-180 | In every state any status on its way can be processed, which changes its receiver alone. |
| `Membership.StepsPossible` | pubsub/agent.go:129-268 | When a run may go on with a leave, a join or a creation. |
| `SerialJoin.SerialisedJoin` | pubsub/agent.go:160-268 | A join of the serialised protocol is reading the list, everybody's answer, the check, entering and announcing with nothing in between: both lead to the same state. |
| `Overlap.AnswersWereGiven` | pubsub/agent.go:195-218 | In every history, each answer a join has collected was given earlier, by a member that held then what is recorded as held. |
| `Overlap.CheckedMembersHeldTheView` | pubsub/agent.go:195-251 | Virtual synchrony in every history: when a consistent join has passed its check, every listed active member other than the acceptor answered, and in the world in which it answered it held exactly the view that the joiner had read. |
| `Overlap.JoinerHoldsRosterIff` | pubsub/agent.go:173-253 | In every history, whatever interleaves, a joiner holds the true roster after entering if and only if its list, over what it has processed meanwhile, gives the roster of that moment, itself apart; for a joiner that its list does not name and that has processed nothing, if and only if the list lists that roster. |
| `Overlap.DepartedMemberStaysIff` | pubsub/agent.go:253-262 | In every history, a listed member that departs once is in the joiner's view when nothing of it is left to process if and only if it departed before the joiner entered or without having the joiner in its own view. |
| `Overlap.LearnsByProcessing` | pubsub/processor.go:166-174 | A member that stays gets a new joiner into its view exactly by processing the joiner's status. |
| `Overlap.DepartedUnawareStaysIff` | pubsub/agent.go:600-626 | So a listed member to whom the joiner is new stays in the joiner's view for good if and only if it departs before it has processed the joiner's status. |
| `Overlap.NeverLearns` | pubsub/agent.go:173-268 | In every history, an agent that enters no list naming another, and who is in no view the other announces itself to, never has the other in its view. |
| `OverlapRuns.OverlappingJoinsDiverge` | pubsub/agent.go:173-262 | For any three agents, any parameters and with or without the consistency check, there is a history with two overlapping joins that ends with nothing left to process, the founder holding the roster and each joiner lacking the other. |
| `OverlapRuns.DepartureAfterCheckStays` | pubsub/agent.go:195-262 | For any three agents and any parameters, there is a history in which a member answers, the check passes, the member departs, and it is in the joiner's view when nothing is left to process. |
| `Convergence.OrderlyHistoriesConverge` | pubsub/agent.go:160-268 | In every history in which each entering list gives the roster of that moment and each leaver is known to all and knows all, once all have announced themselves and all statuses are processed every member holds the true roster and its checksum, however the joins overlap. |
| `SerialRuns.SerialisedRunsAreOrderly` | pubsub/agent.go:160-268 | Every run of the serialised protocol is an orderly history of the unserialised one, state by state. |
| `Syncer.Syncer.Init` | pubsub/syncer.go:49-56 | The topic's clock becomes the current reading, whatever it was. |
| `Syncer.Syncer.Parse` | pubsub/syncer.go:59-77 | On an ordered topic a timestamp that is not earlier replaces the stored one, with the received sender id; otherwise nothing changes. |
| `Syncer.Syncer.Message` | pubsub/syncer.go:81-98 | On an ordered topic the clock becomes the reading, or one more than itself when the reading is behind, under the stored sender id, and the message carries it. |
| `Syncer.AdvanceValue` | pubsub/syncer.go:89-95 | A send stamps the reading unless that is behind the stored timestamp, then one more than the stored one, wrapping around at the end; the sender id stays. |
| `Syncer.AdvanceKeepsOrder` | pubsub/syncer.go:89-95 | A send's timestamp is no smaller than the stored one if and only if it does not increment the largest `int64`. |
| `Syncer.SyncRoundTrip` | pubsub/syncer.go:59-98 | If both sides agree whether the topic is ordered, parsing what was constructed returns the data. |
| `Causality.CausalTimestamps` | pubsub/syncer.go:59-98 | In every run in which no increment wraps around, with arbitrary readings, a send that happens before another has no larger timestamp, and a smaller one unless the later send reads exactly its stored value. |
| `Causality.EventStamps` | pubsub/syncer.go:49-98 | What every event of every run stamps: an initialisation and a send that is not behind the reading, a send that is one more than the clock, a receipt the later timestamp with its sender id; no other clock changes. |
| `Causality.SendsFollowReadings` | pubsub/syncer.go:89-95 | Without a wrapped increment no send is stamped before its reading, and exactly those that find no later timestamp stored are stamped with it. |
| `Causality.Edges` | pubsub/syncer.go:59-98 | Happens-before connects the events of one agent, and each send with each of its receipts. |
| `Causality.RunGoesOn` | pubsub/syncer.go:59-98 | A run may go on with any first reading, and with any send or receipt of an agent that has a clock. |
| `Causality.SendIsStrict` | pubsub/syncer.go:89-95 | In every run a send advances its agent's clock if and only if the reading differs from the stored value and the increment does not wrap around. |
| `Causality.ClocksAreMonotone` | pubsub/syncer.go:72-95 | If no increment wraps around, no agent's clock ever goes back, even when its readings do. |
| `Causality.DriftBound` | pubsub/syncer.go:49-95 | In every run each timestamp, stored or in flight, is at most the largest reading so far plus the number of sends that took the increment branch. |
| `Causality.SharedClock` | pubsub/syncer.go:89-95 | If all agents read one non-decreasing clock the increment branch is never taken and no timestamp, stored or in flight, exceeds the latest reading. |
| `Causality.OrderedIffNoWraps` | pubsub/syncer.go:59-98 | In every run, each event is stamped no earlier than the events directly before it if and only if no send increments the largest `int64`. |
| `Causality.HeadroomPreventsWraps` | pubsub/syncer.go:89-95 | Readings that stay one unit per event below the largest `int64` rule out wrapping. |
| `Causality.EqualReadingsTie` | pubsub/syncer.go:91-95 | Two sends at the same reading get the same timestamp, for every agent and reading. |
| `Causality.WrapBreaksOrder` | pubsub/syncer.go:91-95 | At the largest timestamp the next send gets the smallest one. |
| `Envelope.ModifyNonce` | crypto/cipher.go:65-78 | The loop yields 24 bytes: the nonce followed by the character 0, or its first 24 bytes, byte by byte. |
| `Envelope.CopyFixed` | crypto/cipher.go:38-61 | Copying into a zeroed array gives the source's bytes as far as they go and fit, and zeros after them. |
| `Envelope.PackRoundTrip` | crypto/packer.go:25-176 | The receiver unpacks exactly what was packed for it, for every text, pair of keys, nonce and content key of any length. |
| `Envelope.PackNamesRecipient` | crypto/packer.go:25-89 | The key identifier in the clear header is the recipient's public key. |
| `Envelope.PackHolds` | crypto/packer.go:25-89 | What every field of an envelope decodes to: the content key boxed under the padded nonce, the text sealed under the first 32 bytes of the content key and 12 of the other nonce, zero-filled, with the clear header as associated data. |
| `Envelope.UnpackOpens` | crypto/packer.go:91-176 | An envelope is opened by its first recipient, with exactly the keys and nonces that its fields give. |
| `Envelope.UnpackFails` | crypto/packer.go:91-176 | It stays closed without recipients, or if a field that is needed does not decode. |
| `Envelope.UnreadableStaysClosed` | crypto/packer.go:91-118 | So does an envelope whose text or header cannot be read. |
| `Keys.KeyManager.Peer` | crypto/keys.go:60-76 | Ranging over the key store finds the peer with the public key; with distinct keys the answer does not depend on the order. |
| `Keys.KeyManager.GenerateKeys` | crypto/keys.go:27-36 | Replaces one peer's pair and nothing else. |
| `Keys.KeyManager.GenerateInvKeys` | crypto/keys.go:78-94 | The invitation pair is set once and kept. |
| `Keys.PeerInvertsPublicKey` | crypto/keys.go:49-76 | The reverse lookup undoes the forward one on distinct keys. |
| `DidDoc.CreateDIDDoc` | didcomm/did/handler.go:20-40 | Gives one entry per service with its key encoded in full; panics if and only if a key is longer than 48 bytes. |
| `DidDoc.ReadServices` | prober/agent.go:306-325 | The nested loops read one service per entry, with the first of its keys that decodes; entries without one are skipped. |
| `DidDoc.DocumentRoundTrip` | didcomm/did/handler.go:20-40 | Reading a created document returns exactly the services it was created from. |
| `DidDoc.ServicesOfEntry` | prober/agent.go:306-325 | An entry gives one service with the first of its keys that decodes, or none. |
| `DidDoc.ServicesAppend` | prober/agent.go:306-325 | Documents are read entry by entry, in order. |
| `DidDoc.FirstOfType` | prober/agent.go:452-460 | A service is looked up as the first of its type. |
| `Prober.PeerByExchId` | prober/peers.go:42-66 | Finds a peer with the exchange id if there is one, and the only one if it is unique. |
| `Prober.AwaitPeer` | prober/agent.go:250-261 | The retry loop makes at most eleven lookups, stops at the first that finds the peer, and fails if and only if all eleven miss. |
| `Prober.SealedDocReads` | prober/agent.go:292-326 | A DID document sealed for an agent is read back with exactly its services. |
| `Prober.PackedIsRead` | prober/agent.go:372-450 | A message packed for the key kept for a peer is read with its exact text and that peer's label. |
| `Prober.ForeignIsRejected` | prober/agent.go:428-450 | A message packed for a key the agent does not hold is rejected, never attributed to anybody. |
| `Prober.CrashesIff` | prober/agent.go:428-450 | Reading crashes if and only if the envelope's header can be read and names no recipient. |
| `Prober.OutgoingIs` | prober/agent.go:328-370 | A message is packed for the key of the peer's first message service, and fails without the peer, the pair or the service. |
| `Prober.GroupJoinKey` | pubsub/agent.go:334-342 | The key looked up for an index is that of the peer's first group-join service. |
| `Prober.RequestIsAnswered` | prober/agent.go:182-240 | A request is answered if and only if its document lists a message service; the response carries the request's id and the own document, sealed for the key of the first such service. |
| `Prober.UnreadDoc` | prober/agent.go:292-326 | A document that does not open or is empty gives no services. |
| `Prober.ResponseIsCompleted` | prober/agent.go:262-290 | A response completes the connection if and only if a pair is kept and the document opens with it; the peer keeps its DID. |
| `Handshake.RunKeepsInv` | prober/agent.go:131-290 | In every interleaving of one exchange both agents' stores have exactly the contents their progress dictates. |
| `Handshake.HandshakeAgreement` | prober/agent.go:131-290 | Once both sides hold services they share the request's exchange id, and each side's stored peer keys are the public half of the pair the other keeps for it. |
| `Handshake.PeerEntries` | prober/agent.go:131-290 | The entries an exchange leaves: each side's services with type, endpoint and key, and the requester's DID. |
| `Handshake.StepsPossible` | prober/agent.go:131-290 | Which steps each state of an exchange allows, whatever the other side has done. |
| `Handshake.LookupsAreBounded` | prober/agent.go:250-261 | The response handler makes at most eleven lookups in any interleaving and completes if and only if one of them follows the storing of the peer. |
| `Handshake.ExchangeCompletes` | prober/agent.go:182-290 | When nothing is left to do the inviter holds the services, and the requester does if and only if one of its lookups followed the storing of the peer. |
| `Handshake.ExchangeCanComplete` | prober/agent.go:242-290 | An exchange can complete however many lookups, up to ten, come before the requester has stored the peer. |
| `Handshake.EndToEnd` | prober/agent.go:328-401 | Over a completed handshake each side reads exactly the text the other sent and names it, for every text and random choice. |
| `Connections.RequesterKeepsConnections` | prober/agent.go:131-290 | At every moment of an exchange, finished or not, the requester is still connected with everybody it was connected with before. |
| `Connections.InviterKeepsConnections` | prober/agent.go:182-240 | So is the inviter. |
| `Connections.ExchangeKeepsFreshIds` | prober/agent.go:131-179 | An exchange with an unused id keeps all exchange ids of a network fresh, whenever it stops. |
| `Connections.ExchangeLinks` | prober/agent.go:131-290 | A completed exchange adds its pair to the connections of a network, loses none, and keeps ids and keys apart. |
| `Connections.StrangersCanExchange` | prober/agent.go:131-179 | Any two agents of a network that do not know each other can exchange with an id and keys that nobody has. |
| `Connections.FormationLinks` | prober/agent.go:131-290 | Agents that start as strangers and exchange one completed exchange after the other end up connected in both directions for every pair that has exchanged, with distinct ids and keys of their own. |
| `Delivery.PublishAll` | pubsub/agent.go:413-427 | One frame per index entry, each sealed for and addressed to its subscriber, in some order without repetition; succeeds if and only if every subscriber has a key pair, publishing to it works and the topic has parameters. |
| `Delivery.FrameIsHandled` | pubsub/processor.go:182-204 | A settled subscriber's handler accepts the frame sealed for it with sender, group and text, and no other frame. |
| `Delivery.AcceptedFrames` | pubsub/processor.go:182-204 | Of one send a settled subscriber accepts exactly one message, and an agent that is not indexed none. |
| `Delivery.QueueModesAgree` | pubsub/agent.go:413-427 | One send in single-queue and in multiple-queue mode is accepted identically by every recipient, whatever the order and the random values. |
| `Delivery.ArrivalsByMode` | pubsub/transport/zmq.go:515-520 | Every ciphertext arrives in single-queue mode, and in multiple-queue mode exactly those for subscribers whose name extends the receiver's. |
| `Delivery.CompressStatus` | pubsub/agent.go:566-588 | The broadcast holds one copy per listed member but the sender, under the exchange id of their connection, if all can be sealed for; otherwise the first listed member that cannot decides between an error and the panic on a peer without a group-join service. |
| `Delivery.SelectStatus` | pubsub/processor.go:134-147 | Picks a copy whose exchange id is known, and none if and only if no id is. |
| `Delivery.StatusForIs` | pubsub/agent.go:566-588 | A copy is packed for the key of the member's first group-join service, with the pair kept for the member. |
| `Delivery.SpacelessIsDropped` | pubsub/transport/zmq.go:260-265 | A frame without a space is dropped. |
| `Delivery.SelectionIsDeterministic` | pubsub/processor.go:134-147 | With fresh exchange ids exactly one copy is eligible at an intended receiver, and it is the one sealed for it. |
| `Delivery.ReceiveStatus` | pubsub/processor.go:128-164 | So in every iteration order the receiver picks a copy that reads as the sender's status. |
| `GroupMessaging.ExchangesFormNetwork` | prober/agent.go:131-290 | Agents that start without knowing anybody, and exchange until any two have exchanged, form a network in which all are connected and no key is kept twice. |
| `GroupMessaging.IndexKeyIsExpected` | pubsub/agent.go:334-342 | Over such a network the key of a peer entry and the key decoded from a subscription are both the one that the member's envelope expects. |
| `GroupMessaging.SubscribersAreSettled` | pubsub/agent.go:402-427 | At quiescence of any run over a fully connected network, a publisher's index is every other member and each is a settled subscriber. |
| `GroupMessaging.FilterIsSet` | pubsub/transport/zmq.go:365-387 | At quiescence every member holds the filter for every other publisher's messages to it. |
| `GroupMessaging.MessageReachesEveryMember` | pubsub/agent.go:392-433 | A message sent by a publisher at quiescence of any run is accepted by every other member exactly once, from that publisher, with the exact text. |

## Left out

- ZeroMQ itself: sockets, CURVE authentication, key stores of `pubsub/transport/auth.go`, endpoint connect and disconnect.
- State-topic subscriptions over whole runs: a joiner subscribes once per listed active member (`GroupAgent.GroupAgent.Join`) and a leaver unsubscribes once (`GroupAgent.GroupAgent.Leave`), so that it keeps all but one.
- Recovery from aborted joins: `GroupAgent.GroupAgent.Join` states the traces one leaves, and runs of `Membership` contain none.
- Listeners.StateListener.HandleState: malformed internal messages, which the connector never sends, and the endpoints connected before a failing subscription.
- Listeners.DataListener.HandleData: malformed internal messages and connected endpoints, likewise.
- GroupAgent.GroupAgent.ConnectMember: is called, as in the source, after the topic's parameters have been set.
- GroupAgent.GroupAgent.Join: the list and the members' answers are arguments; finding the acceptor, connecting to unknown members and waiting for connections come before or between. The state after a panic is not stated: the process has ended.
- GroupAgent.GroupAgent.Answer: whether the answer can be packed is an argument, and the state after a panic is not stated.
- GroupAgent.GroupAgent.Request: one request at a time; a request after a state-side failure would find the data listener blocked, which `ControlPlane` treats. No operation of the agent makes a request after one that failed.
- Topic names used again with other parameters: clock entries outlive `Leave`; `Membership` has one set of parameters.
- Repeated handshakes for one label, which regenerate the keys on one side at once, and several exchanges of an agent at the same time.
- Cryptographic strength, randomness, identifier generation, the compression of statuses, and the JSON of everything but member lists. JSON's replacement of invalid UTF-8 does not arise on code points.
- Real time: the hello loop, tickers, busy waiting in `waitForConns` and `SyncService`, and goroutine data races. Store operations are atomic, and the concurrent answers of `Join` are collected before its check.
- Shutdown, logging, the output channel and acknowledgement channels.
- Envelope.PackRoundTrip: `Pack` and `Unpack` are functions on values, and the errors of the encoders and boxes on the sending side are left out.
- Discovery, invitations, the command line, request-reply streams, test scripts, plotting and bootstrap.
