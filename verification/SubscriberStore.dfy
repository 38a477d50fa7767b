/** `pubsub/stores/subscriber.go`: per topic, the subscribers of this agent and their keys. */
module SubscriberStore {
  import opened Base64
  import opened LocalSteps

  type Subs = map<string, map<string, Key>>

  function OfTopic(subs: Subs, topic: string): map<string, Key> {
    if topic in subs then subs[topic] else map[]
  }

  class Subscriber {
    var subs: Subs

    constructor ()
      ensures subs == map[]
    {
      subs := map[];
    }

    /** An unregistered topic is an error, a registered one may have no subscriber left. */
    method QueryByTopic(topic: string) returns (found: Option<map<string, Key>>)
      ensures found == if topic in subs then Some(subs[topic]) else None
    {
      if topic !in subs {
        return None;
      }
      found := Some(subs[topic]);
    }

    method Add(topic: string, sub: string, key: Key)
      modifies this
      ensures subs == old(subs)[topic := OfTopic(old(subs), topic)[sub := key]]
    {
      if topic !in subs {
        subs := subs[topic := map[]];
      }
      subs := subs[topic := subs[topic][sub := key]];
    }

    method Delete(topic: string, sub: string)
      modifies this
      ensures subs.Keys == old(subs).Keys
      ensures OfTopic(subs, topic) == OfTopic(old(subs), topic) - {sub}
      ensures forall t :: t in subs && t != topic ==> subs[t] == old(subs)[t]
    {
      if topic in subs {
        subs := subs[topic := subs[topic] - {sub}];
      }
    }

    method DeleteTopic(topic: string)
      modifies this
      ensures subs == old(subs) - {topic}
    {
      subs := subs - {topic};
    }
  }
}
