/** Asynchronous job submission by the gateway, over the same queue as the dispatcher. */
module Gateway {
  import opened Scheduler
  import opened SchedulerSafety
  import opened MemoryQueue
  import Dispatcher
  import Decimal

  /** 400, 202, 503, or no answer yet because Enqueue waits for room. */
  datatype Reply = BadRequest | Accepted(id: JobId) | Unavailable | Waiting

  const MAX_ATTEMPTS := 3

  /** A newly submitted job. */
  function NewJob(id: JobId, body: Body): Job {
    Job(id, body, 0, MAX_ATTEMPTS)
  }

  /** The last message of the jobs topic carries this job whole, not yet attempted and with three attempts allowed. */
  ghost predicate NewestJob(d: Dispatcher.Dispatcher, id: JobId, body: Body)
    reads d, d.queue
  {
    var queued := d.queue.Queue(d.jobsTopic);
    && queued != [] && queued[|queued| - 1].payload.JobPayload?
    && var job := queued[|queued| - 1].payload.job;
       job.id == id && job.body == body && job.attempt == 0 && job.maxAttempts == 3
  }

  /** All three ways a submission can go keep the protocol's invariant. */
  lemma SubmissionKeepsInv(s: State, id: JobId, body: Body)
    requires id !in s.book.submitted
    ensures var stamped, k := StampStep(s, JobPayload(NewJob(id, body))), |s.pending|;
            Inv(s) ==> Inv(stamped) && Inv(Apply(stamped, GiveUp(k))) && id !in s.accepted
                       && (|s.jobs| < CAPACITY ==> Inv(SendStep(stamped, k)))
  {
    var p := JobPayload(NewJob(id, body));
    if Inv(s) {
      assert Unsent(s, id) + Tally(id in s.accepted) <= Tally(id in s.book.submitted);
      InvStep(s, Stamp(p));
      InvStep(StampStep(s, p), GiveUp(|s.pending|));
      if |s.jobs| < CAPACITY {
        InvStep(StampStep(s, p), Send(|s.pending|));
      }
    }
  }

  /**
   * `done` says whether the request's own context has ended. The job counts as
   * accepted exactly when the caller is told so.
   */
  method SubmitJob(d: Dispatcher.Dispatcher, body: Body, id: JobId, done: bool, preferDone: bool) returns (r: Reply)
    requires d.Valid() && d.queue.seqNo < Decimal.MAX64
    requires id !in d.spec.book.submitted
    modifies d`spec, d.queue
    ensures d.Valid()
    ensures r.BadRequest? <==> body.modelName == "" || body.features == []
    ensures d.spec == if r.BadRequest? then old(d.spec) else
                        var stamped := StampStep(old(d.spec), JobPayload(NewJob(id, body)));
                        if r.Accepted? then SendStep(stamped, |old(d.spec).pending|)
                        else if r.Unavailable? then Apply(stamped, GiveUp(|old(d.spec).pending|))
                        else stamped
    ensures r.Accepted? ==> r.id == id && NewestJob(d, id, body)
    ensures !r.BadRequest? ==> (r.Accepted? <==> SelectSend(|old(d.spec).jobs| < CAPACITY, done, preferDone).Sent?)
    ensures Inv(old(d.spec)) ==> Inv(d.spec) && (r.Accepted? <==> id in d.spec.accepted)
  {
    if body.modelName == "" || body.features == [] {
      SubmissionKeepsInv(d.spec, id, body);
      return BadRequest;
    }
    SubmissionKeepsInv(d.spec, id, body);
    var payload := JobPayload(NewJob(id, body));
    var number := d.queue.NextNumber();
    ghost var k := |d.spec.pending|;
    d.Step(Stamp(payload));
    var sent := d.queue.Offer(d.jobsTopic, Message(number, payload, 1), done, preferDone);
    if sent == Sent {
      d.Step(Send(k));
      r := Accepted(id);
    } else if sent == Cancelled {
      d.Step(GiveUp(k));
      r := Unavailable;
    } else {
      r := Waiting;
    }
  }
}
