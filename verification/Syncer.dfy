/** `pubsub/syncer.go`: the Lamport clock an agent keeps per ordered topic. */
module Syncer {
  import opened Base64

  const MAX_INT64 := 0x7FFF_FFFF_FFFF_FFFF
  const MIN_INT64 := -0x8000_0000_0000_0000

  type int64 = x: int | MIN_INT64 <= x <= MAX_INT64

  datatype Ts = Ts(senderId: int, lampTs: int64)

  datatype GroupMsg = GroupMsg(ts: Ts, data: seq<byte>)

  /** The JSON encoding of a group message. */
  datatype Codec = Codec(marshal: GroupMsg -> seq<byte>, unmarshal: seq<byte> -> Option<GroupMsg>) {
    ghost predicate RoundTrips() {
      forall m :: unmarshal(marshal(m)) == Some(m)
    }
  }

  /** `+ 1` on an `int64` wraps around. */
  function Increment(x: int64): int64 {
    if x == MAX_INT64 then MIN_INT64 else x + 1
  }

  /** `message` takes the later of the clock reading and the successor of the stored timestamp, except that a
      reading equal to the stored timestamp is kept. */
  function Advance(stored: Ts, now: int64): Ts {
    stored.(lampTs := if now < stored.lampTs then Increment(stored.lampTs) else now)
  }

  /** A send stamps the reading unless that is behind the stored timestamp, and then one more, under the stored
      sender id. */
  lemma AdvanceValue(stored: Ts, now: int64)
    ensures Advance(stored, now).senderId == stored.senderId
    ensures stored.lampTs <= now ==> Advance(stored, now).lampTs == now
    ensures now < stored.lampTs < 0x7FFF_FFFF_FFFF_FFFF ==> Advance(stored, now).lampTs == stored.lampTs + 1
    ensures now < stored.lampTs == 0x7FFF_FFFF_FFFF_FFFF ==> Advance(stored, now).lampTs == -0x8000_0000_0000_0000
  {
  }

  /** A send keeps the order of timestamps exactly when it does not increment the largest `int64`. */
  lemma AdvanceKeepsOrder(stored: Ts, now: int64)
    ensures stored.lampTs <= Advance(stored, now).lampTs <==> !(stored.lampTs == MAX_INT64 && now < stored.lampTs)
  {
  }

  /** `parse` replaces the stored timestamp, sender id included, unless it is later than the received one. */
  function Merge(stored: Ts, received: Ts): Ts {
    if stored.lampTs <= received.lampTs then received else stored
  }

  class Syncer {
    const id: int
    const codec: Codec
    var tsMap: map<string, Ts>

    constructor (id: int, codec: Codec)
      ensures this.id == id && this.codec == codec && tsMap == map[]
    {
      this.id, this.codec := id, codec;
      tsMap := map[];
    }

    method Init(topic: string, now: int64)
      modifies this
      ensures tsMap == old(tsMap)[topic := Ts(id, now)]
    {
      tsMap := tsMap[topic := Ts(id, now)];
    }

    /** A topic without a clock leaves the text alone; otherwise a text that is not a group message is an error, and
        a received timestamp that is not earlier than the stored one replaces it, with its sender id. */
    method Parse(topic: string, msg: seq<byte>) returns (data: Option<seq<byte>>)
      modifies this
      ensures topic !in old(tsMap) ==> data == Some(msg) && tsMap == old(tsMap)
      ensures topic in old(tsMap) && codec.unmarshal(msg).None? ==> data == None && tsMap == old(tsMap)
      ensures topic in old(tsMap) && codec.unmarshal(msg).Some? ==>
                var stored, received := old(tsMap)[topic], codec.unmarshal(msg).value.ts;
                data == Some(codec.unmarshal(msg).value.data) &&
                (received.lampTs < stored.lampTs ==> tsMap == old(tsMap)) &&
                (received.lampTs >= stored.lampTs ==>
                 tsMap == old(tsMap)[topic := Ts(received.senderId, received.lampTs)]) &&
                tsMap == old(tsMap)[topic := Merge(stored, received)]
      ensures data == Parsed(codec, if topic in old(tsMap) then Some(old(tsMap)[topic]) else None, msg)
    {
      if topic !in tsMap {
        return Some(msg);
      }
      var storedTs := tsMap[topic];
      var gm := codec.unmarshal(msg);
      if gm.None? {
        return None;
      }
      if storedTs.lampTs <= gm.value.ts.lampTs {
        tsMap := tsMap[topic := gm.value.ts];
      }
      data := Some(gm.value.data);
    }

    /** The message carries the new timestamp: the reading, unless that is behind the stored timestamp, which is then
        incremented.  The sender id stays the stored one. */
    method Message(topic: string, data: seq<byte>, now: int64) returns (msg: seq<byte>)
      modifies this
      ensures topic !in old(tsMap) ==> msg == data && tsMap == old(tsMap)
      ensures topic in old(tsMap) ==>
                var stored := old(tsMap)[topic];
                topic in tsMap && tsMap == old(tsMap)[topic := tsMap[topic]] &&
                tsMap[topic].senderId == stored.senderId &&
                (stored.lampTs <= now ==> tsMap[topic].lampTs == now) &&
                (now < stored.lampTs < 0x7FFF_FFFF_FFFF_FFFF ==> tsMap[topic].lampTs == stored.lampTs + 1) &&
                (now < stored.lampTs == 0x7FFF_FFFF_FFFF_FFFF ==> tsMap[topic].lampTs == -0x8000_0000_0000_0000) &&
                msg == codec.marshal(GroupMsg(tsMap[topic], data)) && tsMap[topic] == Advance(stored, now)
      ensures msg == Sent(codec, if topic in old(tsMap) then Some(old(tsMap)[topic]) else None, data, now)
    {
      if topic !in tsMap {
        return data;
      }
      var storedTs := tsMap[topic];
      if now < storedTs.lampTs {
        storedTs := storedTs.(lampTs := Increment(storedTs.lampTs));
      } else {
        storedTs := storedTs.(lampTs := now);
      }
      tsMap := tsMap[topic := storedTs];
      msg := codec.marshal(GroupMsg(storedTs, data));
    }
  }

  /** What the receiver's `parse` makes of the sender's `message`: the clock entries are the sender's and the
      receiver's for the topic, absent on an unordered topic. */
  function Sent(codec: Codec, clock: Option<Ts>, data: seq<byte>, now: int64): seq<byte> {
    if clock.None? then data else codec.marshal(GroupMsg(Advance(clock.value, now), data))
  }

  function Parsed(codec: Codec, clock: Option<Ts>, msg: seq<byte>): Option<seq<byte>> {
    if clock.None? then Some(msg)
    else if codec.unmarshal(msg).None? then None
    else Some(codec.unmarshal(msg).value.data)
  }

  /** Sender and receiver agree on the text whenever they agree on whether the topic is ordered. */
  lemma SyncRoundTrip(codec: Codec, sender: Option<Ts>, receiver: Option<Ts>, data: seq<byte>, now: int64)
    requires codec.RoundTrips() && sender.Some? == receiver.Some?
    ensures Parsed(codec, receiver, Sent(codec, sender, data, now)) == Some(data)
  {
  }
}
