/** The dispatcher's code, statement by statement, proved to take steps of the job protocol. */
module Dispatcher {
  import opened Wrappers
  import opened Scheduler
  import opened SchedulerSafety
  import opened SchedulerProgress
  import opened MemoryQueue
  import Decimal

  /** What the environment decides during one loop iteration. */
  datatype Choice = Choice(reply: bool, preferDone: bool, stopFirst: bool)

  /** The steps of Enqueue: take a number, then one select, or none while it waits. */
  function EnqueueTrace(s: State, topic: Topic, preferDone: bool): seq<Event> {
    match SelectSend(|Channel(s, topic)| < CAPACITY, s.cancelled, preferDone)
    case Sent => [TakeNumber, Publish]
    case Cancelled => [TakeNumber, Abandon]
    case Blocked => [TakeNumber]
  }

  /** The steps `handle` takes from the moment Predict returns. */
  function HandleTrace(s: State, reply: bool, preferDone: bool): seq<Event>
    requires s.control.Calling?
  {
    if !reply && s.control.job.attempt >= s.control.job.maxAttempts then [Reply(reply)]
    else [Reply(reply)] + EnqueueTrace(s, if reply then Results else Jobs, preferDone)
  }

  lemma EnqueueRun(s: State, topic: Topic, preferDone: bool)
    requires s.control.Enqueuing? && s.control.topic == topic
    ensures ValidRun(s, EnqueueTrace(s, topic, preferDone))
    ensures After(s, EnqueueTrace(s, topic, preferDone))
            == match SelectSend(|Channel(s, topic)| < CAPACITY, s.cancelled, preferDone)
               case Sent => PublishStep(TakeNumberStep(s))
               case Cancelled => Apply(TakeNumberStep(s), Abandon)
               case Blocked => TakeNumberStep(s)
  {
    assert ValidRun(s, []) && After(s, []) == s;
    RunAppend(s, [], TakeNumber);
    assert [] + [TakeNumber] == [TakeNumber];
    match SelectSend(|Channel(s, topic)| < CAPACITY, s.cancelled, preferDone)
    case Sent => RunAppend(s, [TakeNumber], Publish); assert [TakeNumber] + [Publish] == [TakeNumber, Publish];
    case Cancelled => RunAppend(s, [TakeNumber], Abandon); assert [TakeNumber] + [Abandon] == [TakeNumber, Abandon];
    case Blocked =>
  }

  /** Those steps are a run: the reply, then Enqueue's steps if there is something to send. */
  lemma HandleRun(s: State, reply: bool, preferDone: bool)
    requires s.control.Calling?
    ensures ValidRun(s, HandleTrace(s, reply, preferDone))
    ensures var t, topic := ReplyStep(s, reply), if reply then Results else Jobs;
            After(s, HandleTrace(s, reply, preferDone))
            == if t.control.Returned? then t else After(t, EnqueueTrace(t, topic, preferDone))
  {
    var t, topic := ReplyStep(s, reply), if reply then Results else Jobs;
    if t.control.Returned? {
      assert ValidRun(t, []) && [Reply(reply)] + [] == [Reply(reply)];
      RunPrepend(s, Reply(reply), []);
    } else {
      assert EnqueueTrace(t, topic, preferDone) == EnqueueTrace(s, topic, preferDone);
      EnqueueRun(t, topic, preferDone);
      RunPrepend(s, Reply(reply), EnqueueTrace(t, topic, preferDone));
    }
  }

  /** The router's answers among the steps of a run, in order. */
  function Replies(es: seq<Event>): seq<bool> {
    if es == [] then [] else (if es[0].Reply? then [es[0].ok] else []) + Replies(es[1..])
  }

  lemma {:induction false} RepliesConcat(es: seq<Event>, fs: seq<Event>)
    ensures Replies(es + fs) == Replies(es) + Replies(fs)
  {
    if es == [] {
      assert es + fs == fs;
    } else {
      RepliesConcat(es[1..], fs);
      assert (es + fs)[1..] == es[1..] + fs;
    }
  }

  ghost predicate Own(es: seq<Event>) {
    forall e :: e in es ==> OfDispatcher(e)
  }

  lemma OwnConcat(es: seq<Event>, fs: seq<Event>)
    requires Own(es) && Own(fs)
    ensures Own(es + fs)
  {
  }

  /** An answered call counts as processed, a failed one as failed. */
  predicate CountedAs(s: State, t: State, reply: bool) {
    && t.counters.processed == s.counters.processed + (if reply then 1 else 0)
    && t.counters.failed == s.counters.failed + (if reply then 0 else 1)
  }

  /**
   * Where a job goes, given the channel without it: an answered job leaves its
   * result, a failed one comes back with its attempt count raised, and with no
   * attempt left it is dead-lettered as it came.
   */
  predicate PlacedFrom(s: State, t: State, rest: seq<Message>, job: Job, reply: bool) {
    var id := MessageId(Decimal.Text(t.seqNo));
    if reply then
      t.results == s.results + [Message(id, ResultPayload(job.id), 1)] && t.jobs == rest && t.deadLetters == s.deadLetters
    else if job.attempt + 1 >= job.maxAttempts then
      t.results == s.results && t.jobs == rest && t.deadLetters == s.deadLetters + [JobPayload(job)]
    else
      t.results == s.results && t.deadLetters == s.deadLetters
      && t.jobs == rest + [Message(id, JobPayload(job.(attempt := job.attempt + 1)), 1)]
  }

  /** A message that does not decode leaves nothing behind. */
  predicate Discarded(s: State, t: State, rest: seq<Message>) {
    t.jobs == rest && t.results == s.results && t.deadLetters == s.deadLetters && t.lost == s.lost
    && t.counters == s.counters && t.predictCalls == s.predictCalls
  }

  /** What the handler's steps amount to. */
  lemma HandleEffect(s: State, reply: bool, preferDone: bool)
    requires s.control.Calling? && s.control.raw.payload == JobPayload(s.control.job.(attempt := s.control.job.attempt - 1))
    requires ValidRun(s, HandleTrace(s, reply, preferDone))
    ensures Replies(HandleTrace(s, reply, preferDone)) == [reply] && Own(HandleTrace(s, reply, preferDone))
    ensures var t := After(s, HandleTrace(s, reply, preferDone));
            && CountedAs(s, t, reply) && t.cancelled == s.cancelled && t.predictCalls == s.predictCalls
            && (t.control.Returned? ==> !t.control.failed)
            && (t.control.Returned? && !s.cancelled ==> PlacedFrom(s, t, s.jobs, s.control.raw.payload.job, reply))
  {
    HandleRun(s, reply, preferDone);
    var t, topic := ReplyStep(s, reply), if reply then Results else Jobs;
    if !t.control.Returned? {
      EnqueueRun(t, topic, preferDone);
    }
    HandleReplies(s, reply, preferDone);
  }

  lemma HandleReplies(s: State, reply: bool, preferDone: bool)
    requires s.control.Calling?
    ensures Replies(HandleTrace(s, reply, preferDone)) == [reply] && Own(HandleTrace(s, reply, preferDone))
  {
    var sends := EnqueueTrace(s, if reply then Results else Jobs, preferDone);
    RepliesOfSends(sends);
    RepliesConcat([Reply(reply)], sends);
    RepliesOfOne(Reply(reply));
  }

  lemma RepliesOfSends(es: seq<Event>)
    requires es == [TakeNumber, Publish] || es == [TakeNumber, Abandon] || es == [TakeNumber]
    ensures Replies(es) == []
  {
    RepliesOfOne(TakeNumber);
    if |es| == 2 {
      RepliesOfOne(es[1]);
      RepliesConcat([TakeNumber], [es[1]]);
      assert es == [TakeNumber] + [es[1]];
    }
  }

  lemma RepliesOfOne(e: Event)
    ensures Replies([e]) == if e.Reply? then [e.ok] else []
  {
    assert [e][1..] == [];
  }

  class Dispatcher {
    const queue: Memory
    const jobsTopic: string
    const resultsTopic: string
    const backoff: int
    var cancelled: bool
    var counters: Counters
    ghost var spec: State  // the protocol state this object is in

    ghost predicate Valid()
      reads this, queue
    {
      && jobsTopic != resultsTopic
      && spec.jobs == queue.Queue(jobsTopic)
      && spec.results == queue.Queue(resultsTopic)
      && spec.deadLetters == queue.Dead(jobsTopic)
      && spec.seqNo == queue.seqNo
      && spec.counters == counters
      && spec.cancelled == cancelled
      && spec.book.backoff == backoff
    }

    constructor (q: Memory, jobsTopic: string, resultsTopic: string, backoff: int)
      requires jobsTopic != resultsTopic
      requires q.topics == map[] && q.dlq == map[] && q.seqNo == 0
      ensures Valid() && queue == q && spec == Initial(backoff)
      ensures this.jobsTopic == jobsTopic && this.resultsTopic == resultsTopic && this.backoff == backoff
    {
      queue, this.jobsTopic, this.resultsTopic, this.backoff := q, jobsTopic, resultsTopic, backoff;
      cancelled, counters := false, Counters(0, 0, 0, 0);
      spec := Initial(backoff);
    }

    ghost function TopicName(topic: Topic): string {
      if topic == Jobs then jobsTopic else resultsTopic
    }

    /** One protocol step, on the ghost side. */
    ghost method Step(e: Event)
      requires Enabled(spec, e)
      modifies this`spec
      ensures spec == Apply(old(spec), e)
    {
      spec := Apply(spec, e);
    }

    /** Enqueue from inside the handler; an error is only logged. */
    method Enqueue(ghost topic: Topic, name: string, payload: Payload, preferDone: bool) returns (r: Offered)
      requires Valid() && name == TopicName(topic) && queue.seqNo < Decimal.MAX64
      requires spec.control.Enqueuing? && spec.control.topic == topic && spec.control.payload == payload
      modifies this`spec, queue`seqNo, queue`topics
      ensures Valid() && queue.seqNo == old(queue.seqNo) + 1
      ensures r == SelectSend(|Channel(old(spec), topic)| < CAPACITY, cancelled, preferDone)
      ensures ValidRun(old(spec), EnqueueTrace(old(spec), topic, preferDone))
      ensures spec == After(old(spec), EnqueueTrace(old(spec), topic, preferDone))
      ensures if r == Blocked then spec.control.Sending? && spec.control.topic == topic && !cancelled
              else spec.control == Returned(old(spec).control.raw, false)
      ensures r == Blocked ==> Channel(spec, topic) == Channel(old(spec), topic)
    {
      EnqueueRun(spec, topic, preferDone);
      var id := queue.NextNumber();
      Step(TakeNumber);
      r := queue.Offer(name, Message(id, payload, 1), cancelled, preferDone);
      if r == Sent {
        Step(Publish);
      } else if r == Cancelled {
        Step(Abandon);
      }
    }

    /** `handle` after a failed call: the job is dead-lettered, or requeued with its raised count. */
    method HandleFailure(job: Job, raw: Message, preferDone: bool) returns (back: bool, failed: bool)
      requires Valid() && queue.seqNo < Decimal.MAX64
      requires spec.control == Calling(raw, job)
      modifies this`spec, this`counters, queue
      ensures Valid() && queue.seqNo <= old(queue.seqNo) + 1
      ensures ValidRun(old(spec), HandleTrace(old(spec), false, preferDone))
      ensures spec == After(old(spec), HandleTrace(old(spec), false, preferDone))
      ensures if back then spec.control == Returned(raw, failed) else Wedged(spec)
    {
      HandleRun(spec, false, preferDone);
      Step(Reply(false));
      counters := counters.(failed := counters.failed + 1);
      if job.attempt >= job.maxAttempts {
        counters := counters.(deadLettered := counters.deadLettered + 1);
        failed := queue.DeadLetter(jobsTopic, raw.payload);
        return true, failed;
      }
      counters := counters.(retried := counters.retried + 1);
      var sent := Enqueue(Jobs, jobsTopic, JobPayload(job), preferDone);
      back, failed := sent != Blocked, false;
    }

    /** `handle` after an answered call: the result is published. */
    method HandleSuccess(job: Job, raw: Message, preferDone: bool) returns (back: bool, failed: bool)
      requires Valid() && queue.seqNo < Decimal.MAX64
      requires spec.control == Calling(raw, job)
      modifies this`spec, this`counters, queue
      ensures Valid() && queue.seqNo <= old(queue.seqNo) + 1
      ensures ValidRun(old(spec), HandleTrace(old(spec), true, preferDone))
      ensures spec == After(old(spec), HandleTrace(old(spec), true, preferDone))
      ensures if back then spec.control == Returned(raw, failed) else Wedged(spec)
    {
      HandleRun(spec, true, preferDone);
      Step(Reply(true));
      counters := counters.(processed := counters.processed + 1);
      var sent := Enqueue(Results, resultsTopic, ResultPayload(job.id), preferDone);
      back, failed := sent != Blocked, false;
    }

    /**
     * `handle`, with the router's answer in `c.reply`. Run without interference
     * it takes exactly the steps of HandleTrace, and it comes back unless its
     * send has to wait.
     */
    method Handle(delivered: Job, raw: Message, c: Choice) returns (back: bool, failed: bool)
      requires Valid() && queue.seqNo < Decimal.MAX64
      requires spec.control == Calling(raw, delivered.(attempt := delivered.attempt + 1))
      modifies this`spec, this`counters, queue
      ensures Valid() && queue.seqNo <= old(queue.seqNo) + 1
      ensures ValidRun(old(spec), HandleTrace(old(spec), c.reply, c.preferDone))
      ensures spec == After(old(spec), HandleTrace(old(spec), c.reply, c.preferDone))
      ensures if back then spec.control == Returned(raw, failed) else Wedged(spec)
    {
      var job := delivered.(attempt := delivered.attempt + 1);
      if c.reply {
        back, failed := HandleSuccess(job, raw, c.preferDone);
      } else {
        back, failed := HandleFailure(job, raw, c.preferDone);
      }
    }

    /** The handler's error, if any, puts the message back; then the loop selects again. */
    method Acknowledge(msg: Message, failed: bool)
      requires Valid() && spec.control == Returned(msg, failed)
      modifies this`spec, queue`topics
      ensures Valid() && spec == ReturnStep(old(spec))
    {
      if failed {
        queue.Redeliver(jobsTopic, msg);
      }
      Step(Return);
    }

    /** The handler closure on one received message, to the end of the loop body. */
    method Process(msg: Message, c: Choice) returns (more: bool, ghost es: seq<Event>)
      requires Valid() && queue.seqNo < Decimal.MAX64
      requires match msg.payload
               case JobPayload(job) => spec.control == Calling(msg, job.(attempt := job.attempt + 1))
               case _ => spec.control == Returned(msg, false)
      modifies this`spec, this`counters, queue
      ensures Valid() && queue.seqNo <= old(queue.seqNo) + 1
      ensures ValidRun(old(spec), es) && spec == After(old(spec), es)
      ensures if more then spec.control == Idle else Wedged(spec)
      ensures Own(es) && spec.cancelled == old(spec.cancelled)
      ensures Replies(es) == if msg.payload.JobPayload? then [c.reply] else []
      ensures match msg.payload
              case JobPayload(job) =>
                CountedAs(old(spec), spec, c.reply) && spec.predictCalls == old(spec.predictCalls)
                && (more && !cancelled ==> PlacedFrom(old(spec), spec, old(spec.jobs), job, c.reply))
              case _ => more && Discarded(old(spec), spec, old(spec.jobs))
    {
      es := [];
      more := true;
      var failed := false;
      if msg.payload.JobPayload? {
        es := HandleTrace(spec, c.reply, c.preferDone);
        HandleRun(spec, c.reply, c.preferDone);
        HandleEffect(spec, c.reply, c.preferDone);
        more, failed := Handle(msg.payload.job, msg, c);
      }
      if more {
        RunAppend(old(spec), es, Return);
        RepliesConcat(es, [Return]);
        RepliesOfOne(Return);
        es := es + [Return];
        Acknowledge(msg, failed);
      }
    }

    /**
     * One iteration of Consume's loop; `es` are the protocol steps it takes. The
     * router is asked about a job at the head, and its answer decides what becomes
     * of the job; a head that does not decode is dropped.
     */
    method ConsumeOnce(c: Choice) returns (more: bool, ghost es: seq<Event>)
      requires Valid() && spec.control == Idle && queue.seqNo < Decimal.MAX64
      modifies this`spec, this`counters, queue
      ensures Valid() && queue.seqNo <= old(queue.seqNo) + 1
      ensures ValidRun(old(spec), es) && spec == After(old(spec), es) && Own(es)
      ensures more ==> spec.control == Idle && es != []
      ensures !more ==> spec.control.Stopped? || (spec == old(spec) && spec.jobs == [] && !cancelled) || Wedged(spec)
      ensures spec.control.Stopped? <==> cancelled && (c.stopFirst || old(spec.jobs) == [])
      ensures Replies(es) == if spec.predictCalls > old(spec.predictCalls) then [c.reply] else []
      ensures old(spec.jobs) == [] || spec.control.Stopped? ==> Discarded(old(spec), spec, old(spec.jobs))
      ensures old(spec.jobs) != [] && !spec.control.Stopped? ==>
                match old(spec.jobs)[0].payload
                case JobPayload(job) =>
                  CountedAs(old(spec), spec, c.reply) && spec.predictCalls == old(spec.predictCalls) + 1
                  && (more && !cancelled ==> PlacedFrom(old(spec), spec, old(spec.jobs)[1..], job, c.reply))
                case _ => more && Discarded(old(spec), spec, old(spec.jobs)[1..])
    {
      es := [];
      more := false;
      if cancelled && c.stopFirst {
        es := StopNow();
        return;
      }
      var received := queue.Receive(jobsTopic);
      match received
      case Some(msg) =>
        Step(Deliver);
        more, es := Process(msg, c);
        RunPrepend(old(spec), Deliver, es);
        assert ([Deliver] + es)[1..] == es;
        es := [Deliver] + es;
      case None =>
        if cancelled {
          es := StopNow();
        }
    }

    /** Consume returns because its context is done. */
    method StopNow() returns (ghost es: seq<Event>)
      requires Valid() && spec.control == Idle && cancelled
      modifies this`spec
      ensures Valid() && spec == old(spec).(control := Stopped)
      ensures ValidRun(old(spec), es) && spec == After(old(spec), es) && Own(es) && Replies(es) == []
    {
      RunPrepend(spec, Stop, []);
      es := [Stop] + [];
      assert es[1..] == [];
      Step(Stop);
    }

    /**
     * Consume, against any sequence of answers: what the code does is a run of
     * the protocol, so everything proved of runs holds of the code. `rounds`
     * iterations handle a message and go on, each with at least one step; the
     * loop ends early only where the dispatcher is stuck. `served` lists the
     * choices whose round asked the router, one for each Predict call; the
     * answers acted on are theirs, in order.
     */
    method Consume(choices: seq<Choice>) returns (rounds: nat, ghost es: seq<Event>, ghost served: seq<nat>)
      requires Valid() && spec.control == Idle && queue.seqNo + |choices| <= Decimal.MAX64
      modifies this`spec, this`counters, queue
      ensures Valid()
      ensures Consumed(old(spec), spec, choices, es, served, if rounds < |choices| then rounds + 1 else rounds)
      ensures Inv(old(spec)) ==> Inv(spec)
      ensures rounds <= |choices| && rounds <= |es|
      ensures if rounds == |choices| then spec.control == Idle else DispatcherStuck(spec)
    {
      es, rounds, served := [], 0, [];
      var more := true;
      while more && rounds < |choices|
        invariant rounds <= |choices| && rounds <= |es|
        invariant Valid() && queue.seqNo <= old(queue.seqNo) + rounds + (if more then 0 else 1)
        invariant if more then spec.control == Idle else rounds < |choices| && DispatcherStuck(spec)
        invariant Consumed(old(spec), spec, choices, es, served, if more then rounds else rounds + 1)
        decreases |choices| - rounds, more
      {
        ghost var one, before := [], spec;
        more, one := ConsumeOnce(choices[rounds]);
        es, served := ConsumedStep(old(spec), before, spec, choices, es, served, rounds, one);
        if more {
          rounds := rounds + 1;
        } else {
          StuckShape(spec);
        }
      }
      if Inv(old(spec)) {
        InvRun(old(spec), es);
      }
    }
  }

  /**
   * `es` is a run of the dispatcher's own steps from `start` to `now`; `served`
   * are the choices, before `bound`, whose round asked the router, one for each
   * Predict call, and the answers acted on are theirs, in order.
   */
  ghost predicate Consumed(start: State, now: State, choices: seq<Choice>, es: seq<Event>, served: seq<nat>, bound: nat) {
    && ValidRun(start, es) && now == After(start, es) && Own(es)
    && bound <= |choices| && Rising(served, bound)
    && |served| == now.predictCalls - start.predictCalls
    && Replies(es) == Picked(choices, served)
  }

  lemma ConsumedStep(start: State, before: State, now: State, choices: seq<Choice>, es: seq<Event>, served: seq<nat>,
                     k: nat, one: seq<Event>)
    returns (es': seq<Event>, served': seq<nat>)
    requires Consumed(start, before, choices, es, served, k) && k < |choices|
    requires ValidRun(before, one) && now == After(before, one) && Own(one)
    requires before.predictCalls <= now.predictCalls <= before.predictCalls + 1
    requires Replies(one) == if now.predictCalls > before.predictCalls then [choices[k].reply] else []
    ensures es' == es + one && Consumed(start, now, choices, es', served', k + 1)
  {
    RunConcat(start, es, one);
    RepliesConcat(es, one);
    OwnConcat(es, one);
    es', served' := es + one, served;
    if now.predictCalls > before.predictCalls {
      PickedAppend(choices, served, k);
      served' := served + [k];
    }
  }

  /** Indices in strictly rising order, all below `bound`. */
  predicate Rising(served: seq<nat>, bound: nat) {
    && (forall i, j :: 0 <= i < j < |served| ==> served[i] < served[j])
    && (forall i :: 0 <= i < |served| ==> served[i] < bound)
  }

  function Picked(choices: seq<Choice>, served: seq<nat>): seq<bool>
    requires Rising(served, |choices|)
  {
    seq(|served|, i requires 0 <= i < |served| => choices[served[i]].reply)
  }

  lemma PickedAppend(choices: seq<Choice>, served: seq<nat>, k: nat)
    requires Rising(served, k) && k < |choices|
    ensures Rising(served + [k], |choices|)
    ensures Picked(choices, served + [k]) == Picked(choices, served) + [choices[k].reply]
  {
  }
}
