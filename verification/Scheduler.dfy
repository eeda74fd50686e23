/**
 * The job protocol between submitters, the in-memory queue and the dispatcher,
 * as a machine whose steps are the atomic actions of the code. Submitters, the
 * dispatcher and cancellation interleave freely.
 */
module Scheduler {
  import opened Bags
  import Decimal

  const CAPACITY: nat := 1024  // slots of every channel

  datatype JobId = Uuid(text: string)

  datatype Body = Body(modelName: string, features: seq<real>, others: string)

  /** `body` is every field of the job that the scheduler only copies. */
  datatype Job = Job(id: JobId, body: Body, attempt: int, maxAttempts: int)

  datatype Payload = Malformed | JobPayload(job: Job) | ResultPayload(jobId: JobId)

  datatype MessageId = MessageId(text: string)

  datatype Message = Message(id: MessageId, payload: Payload, attempt: int)

  datatype Topic = Jobs | Results

  /** Where the only consumer is in `Consume` and `handle`. */
  datatype Control =
    | Idle                                                          // selecting in Consume
    | Calling(raw: Message, job: Job)                               // Predict outstanding
    | Enqueuing(raw: Message, topic: Topic, payload: Payload)       // about to take a sequence number
    | Sending(raw: Message, topic: Topic, outgoing: Message)        // selecting in Enqueue
    | Returned(raw: Message, failed: bool)                          // handler is back in Consume
    | Stopped

  datatype Counters = Counters(processed: nat, failed: nat, retried: nat, deadLettered: nat)

  /** What has been done for one job since it was submitted. */
  datatype Ledger = Ledger(calls: nat, failures: nat, retries: nat, slept: int)

  /** Each job as submitted, and what was done for it; `backoff` is the configured unit of sleep. */
  datatype Book = Book(backoff: int, submitted: map<JobId, Job>, ledgers: map<JobId, Ledger>) {
    function Of(id: JobId): Ledger {
      if id in ledgers then ledgers[id] else Ledger(0, 0, 0, 0)
    }

    function Enter(id: JobId, l: Ledger): Book {
      this.(ledgers := ledgers[id := l])
    }
  }

  datatype State = State(
    seqNo: nat,
    pending: seq<Message>,        // stamped by a submitter, not yet sent
    jobs: seq<Message>,
    results: seq<Message>,
    deadLetters: seq<Payload>,
    control: Control,
    cancelled: bool,
    counters: Counters,
    // what happened so far
    issued: seq<MessageId>,          // message IDs handed out, oldest first
    book: Book,
    accepted: set<JobId>,         // jobs whose Enqueue returned nil
    arrivals: nat,                // messages whose Enqueue by a submitter returned nil
    dropped: nat,                 // malformed messages acknowledged unprocessed
    lost: seq<Payload>,           // payloads whose Enqueue by the dispatcher failed
    predictCalls: nat)

  function Initial(backoff: int): State {
    State(0, [], [], [], [], Idle, false, Counters(0, 0, 0, 0),
          [], Book(backoff, map[], map[]), {}, 0, 0, [], 0)
  }

  datatype Event =
    | Stamp(payload: Payload)   // a submitter takes a sequence number
    | Send(k: nat)              // a stamped message enters the jobs channel
    | GiveUp(k: nat)            // a submitter's own context ends first
    | Cancel                    // the dispatcher's context is cancelled
    | Deliver
    | Reply(ok: bool)           // Predict returns
    | TakeNumber
    | Publish
    | Abandon                   // the dispatcher's Enqueue sees its context done
    | Return
    | Stop

  function Channel(s: State, topic: Topic): seq<Message> {
    if topic == Jobs then s.jobs else s.results
  }

  /** A submission is a fresh job with no attempts yet, or bytes that do not decode. */
  predicate Submittable(s: State, p: Payload) {
    p.Malformed? || (p.JobPayload? && p.job.attempt == 0 && p.job.id !in s.book.submitted)
  }

  predicate Enabled(s: State, e: Event) {
    match e
    case Stamp(p) => Submittable(s, p)
    case Send(k) => k < |s.pending| && |s.jobs| < CAPACITY
    case GiveUp(k) => k < |s.pending|
    case Cancel => true
    case Deliver => s.control.Idle? && s.jobs != []
    case Reply(_) => s.control.Calling?
    case TakeNumber => s.control.Enqueuing?
    case Publish => s.control.Sending? && |Channel(s, s.control.topic)| < CAPACITY
    case Abandon => s.control.Sending? && s.cancelled
    case Return => s.control.Returned?
    case Stop => s.control.Idle? && s.cancelled
  }

  function NextId(s: State): MessageId {
    MessageId(Decimal.Text(s.seqNo + 1))
  }

  function StampStep(s: State, p: Payload): State {
    s.(seqNo := s.seqNo + 1,
       issued := s.issued + [NextId(s)],
       pending := s.pending + [Message(NextId(s), p, 1)],
       book := if p.JobPayload? then s.book.(submitted := s.book.submitted[p.job.id := p.job]) else s.book)
  }

  function SendStep(s: State, k: nat): State
    requires k < |s.pending|
  {
    var m := s.pending[k];
    s.(pending := Without(s.pending, k),
       jobs := s.jobs + [m],
       arrivals := s.arrivals + 1,
       accepted := if m.payload.JobPayload? then s.accepted + {m.payload.job.id} else s.accepted)
  }

  /** Receiving from the channel, decoding, and `handle` up to the Predict call. */
  function DeliverStep(s: State): State
    requires s.jobs != []
  {
    var m := s.jobs[0];
    match m.payload
    case JobPayload(job) =>
      var l := s.book.Of(job.id);
      s.(jobs := s.jobs[1..],
         control := Calling(m, job.(attempt := job.attempt + 1)),
         predictCalls := s.predictCalls + 1,
         book := s.book.Enter(job.id, l.(calls := l.calls + 1)))
    case _ =>
      s.(jobs := s.jobs[1..], control := Returned(m, false), dropped := s.dropped + 1)
  }

  function ReplyStep(s: State, ok: bool): State
    requires s.control.Calling?
  {
    var raw, job, c := s.control.raw, s.control.job, s.counters;
    var l := s.book.Of(job.id);
    if ok then
      s.(counters := c.(processed := c.processed + 1),
         control := Enqueuing(raw, Results, ResultPayload(job.id)))
    else if job.attempt >= job.maxAttempts then
      s.(counters := c.(failed := c.failed + 1, deadLettered := c.deadLettered + 1),
         book := s.book.Enter(job.id, l.(failures := l.failures + 1)),
         deadLetters := s.deadLetters + [raw.payload],
         control := Returned(raw, false))
    else
      s.(counters := c.(failed := c.failed + 1, retried := c.retried + 1),
         book := s.book.Enter(job.id, Ledger(l.calls, l.failures + 1, l.retries + 1,
                                               l.slept + s.book.backoff * job.attempt)),
         control := Enqueuing(raw, Jobs, JobPayload(job)))
  }

  function TakeNumberStep(s: State): State
    requires s.control.Enqueuing?
  {
    s.(seqNo := s.seqNo + 1,
       issued := s.issued + [NextId(s)],
       control := Sending(s.control.raw, s.control.topic, Message(NextId(s), s.control.payload, 1)))
  }

  function PublishStep(s: State): State
    requires s.control.Sending?
  {
    var raw, m := s.control.raw, s.control.outgoing;
    if s.control.topic == Jobs then
      s.(jobs := s.jobs + [m], control := Returned(raw, false))
    else
      s.(results := s.results + [m], control := Returned(raw, false))
  }

  /** A handler error redelivers the message with its count raised, if there is room. */
  function ReturnStep(s: State): State
    requires s.control.Returned?
  {
    var raw := s.control.raw;
    if s.control.failed && |s.jobs| < CAPACITY then
      s.(jobs := s.jobs + [raw.(attempt := raw.attempt + 1)], control := Idle)
    else
      s.(control := Idle)
  }

  function Apply(s: State, e: Event): State
    requires Enabled(s, e)
  {
    match e
    case Stamp(p) => StampStep(s, p)
    case Send(k) => SendStep(s, k)
    case GiveUp(k) => s.(pending := Without(s.pending, k))
    case Cancel => s.(cancelled := true)
    case Deliver => DeliverStep(s)
    case Reply(ok) => ReplyStep(s, ok)
    case TakeNumber => TakeNumberStep(s)
    case Publish => PublishStep(s)
    case Abandon =>
      s.(lost := s.lost + [s.control.outgoing.payload], control := Returned(s.control.raw, false))
    case Return => ReturnStep(s)
    case Stop => s.(control := Stopped)
  }

  predicate ValidRun(s: State, es: seq<Event>)
    decreases |es|
  {
    es == [] || (Enabled(s, es[0]) && ValidRun(Apply(s, es[0]), es[1..]))
  }

  /** The state a run ends in. */
  function After(s: State, es: seq<Event>): State
    requires ValidRun(s, es)
    decreases |es|
  {
    if es == [] then s else After(Apply(s, es[0]), es[1..])
  }

  lemma {:induction false} RunConcat(s: State, es: seq<Event>, fs: seq<Event>)
    requires ValidRun(s, es) && ValidRun(After(s, es), fs)
    ensures ValidRun(s, es + fs) && After(s, es + fs) == After(After(s, es), fs)
    decreases |es|
  {
    if es == [] {
      assert es + fs == fs;
    } else {
      RunConcat(Apply(s, es[0]), es[1..], fs);
      assert (es + fs)[1..] == es[1..] + fs;
    }
  }

  lemma RunPrepend(s: State, e: Event, es: seq<Event>)
    requires Enabled(s, e) && ValidRun(Apply(s, e), es)
    ensures ValidRun(s, [e] + es) && After(s, [e] + es) == After(Apply(s, e), es)
  {
  }

  lemma RunAppend(s: State, es: seq<Event>, e: Event)
    requires ValidRun(s, es) && Enabled(After(s, es), e)
    ensures ValidRun(s, es + [e]) && After(s, es + [e]) == Apply(After(s, es), e)
  {
    var t := After(s, es);
    assert [e][1..] == [] && ValidRun(Apply(t, e), []) && After(Apply(t, e), []) == Apply(t, e);
    RunConcat(s, es, [e]);
  }
}
