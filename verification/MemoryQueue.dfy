/** The in-memory queue: bounded channels per topic, dead letters per topic, one sequence number. */
module MemoryQueue {
  import opened Wrappers
  import opened Scheduler
  import Decimal

  /** How a send's select ended: taken, given up because the context is done, or still waiting. */
  datatype Offered = Sent | Cancelled | Blocked

  /** The select of Enqueue: when both cases are ready, either may be taken. */
  function SelectSend(room: bool, done: bool, preferDone: bool): (r: Offered)
    ensures r.Sent? ==> room
    ensures r.Cancelled? ==> done
    ensures r.Blocked? <==> !room && !done
    ensures room && done ==> (r.Cancelled? <==> preferDone)
  {
    if room && !(done && preferDone) then Sent else if done then Cancelled else Blocked
  }

  class Memory {
    var topics: map<string, seq<Message>>
    var dlq: map<string, seq<Payload>>
    var seqNo: nat

    ghost function Queue(topic: string): seq<Message>
      reads this
    {
      if topic in topics then topics[topic] else []
    }

    ghost function Dead(topic: string): seq<Payload>
      reads this
    {
      if topic in dlq then dlq[topic] else []
    }

    constructor ()
      ensures topics == map[] && dlq == map[] && seqNo == 0
    {
      topics, dlq, seqNo := map[], map[], 0;
    }

    /** Creates the channel on first use; no topic's contents change. */
    method ChanFor(topic: string)
      modifies this`topics
      ensures topic in topics && topics.Keys == old(topics.Keys) + {topic}
      ensures forall t :: Queue(t) == old(Queue(t))
    {
      if topic !in topics {
        topics := topics[topic := []];
      }
    }

    /** The locked half of Enqueue. */
    method NextNumber() returns (id: MessageId)
      requires seqNo < Decimal.MAX64
      modifies this`seqNo
      ensures seqNo == old(seqNo) + 1 && id == MessageId(Decimal.Text(seqNo))
    {
      seqNo := seqNo + 1;
      var text := Decimal.Itoa(seqNo);
      id := MessageId(text);
    }

    /** The select half of Enqueue, as far as it gets without anyone else acting. */
    method Offer(topic: string, m: Message, done: bool, preferDone: bool) returns (r: Offered)
      modifies this`topics
      ensures r == SelectSend(|old(Queue(topic))| < CAPACITY, done, preferDone)
      ensures Queue(topic) == old(Queue(topic)) + if r.Sent? then [m] else []
      ensures forall t :: t != topic ==> Queue(t) == old(Queue(t))
    {
      ChanFor(topic);
      if |topics[topic]| < CAPACITY && !(done && preferDone) {
        topics := topics[topic := topics[topic] + [m]];
        return Sent;
      }
      return if done then Cancelled else Blocked;
    }

    method Receive(topic: string) returns (m: Option<Message>)
      modifies this`topics
      ensures m == if old(Queue(topic)) == [] then None else Some(old(Queue(topic))[0])
      ensures Queue(topic) == if old(Queue(topic)) == [] then [] else old(Queue(topic))[1..]
      ensures forall t :: t != topic ==> Queue(t) == old(Queue(t))
    {
      ChanFor(topic);
      if topics[topic] == [] {
        return None;
      }
      m := Some(topics[topic][0]);
      topics := topics[topic := topics[topic][1..]];
    }

    /** The nack of Consume: raises the delivery count and puts the message back if there is room. */
    method Redeliver(topic: string, m: Message)
      modifies this`topics
      ensures Queue(topic) == old(Queue(topic))
                              + if |old(Queue(topic))| < CAPACITY then [m.(attempt := m.attempt + 1)] else []
      ensures forall t :: t != topic ==> Queue(t) == old(Queue(t))
    {
      ChanFor(topic);
      if |topics[topic]| < CAPACITY {
        topics := topics[topic := topics[topic] + [m.(attempt := m.attempt + 1)]];
      }
    }

    /** Never fails. */
    method DeadLetter(topic: string, payload: Payload) returns (failed: bool)
      modifies this`dlq
      ensures !failed
      ensures Dead(topic) == old(Dead(topic)) + [payload]
      ensures forall t :: t != topic ==> Dead(t) == old(Dead(t))
    {
      dlq := dlq[topic := (if topic in dlq then dlq[topic] else []) + [payload]];
      failed := false;
    }
  }
}
