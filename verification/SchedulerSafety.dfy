/** What every interleaving of the job protocol keeps. */
module SchedulerSafety {
  import opened Bags
  import opened Scheduler
  import Decimal

  // ---------------------------------------------------------------- where jobs are

  function Tally(b: bool): nat {
    if b then 1 else 0
  }

  predicate Names(p: Payload, id: JobId) {
    match p
    case Malformed => false
    case JobPayload(job) => job.id == id
    case ResultPayload(jobId) => jobId == id
  }

  function PayloadTally(id: JobId): Payload -> nat {
    (p: Payload) => Tally(Names(p, id))
  }

  function MessageTally(id: JobId): Message -> nat {
    (m: Message) => Tally(Names(m.payload, id))
  }

  /** The job is inside the handler: delivered, and not yet placed anywhere again. */
  predicate Held(c: Control, id: JobId) {
    match c
    case Calling(_, job) => job.id == id
    case Enqueuing(_, _, p) => Names(p, id)
    case Sending(_, _, m) => Names(m.payload, id)
    case _ => false
  }

  /** Occurrences of a job in jobs channel, handler, results, dead letters and lost list. */
  function Places(s: State, id: JobId): nat {
    Total(s.jobs, MessageTally(id)) + Tally(Held(s.control, id)) + Total(s.results, MessageTally(id))
    + Total(s.deadLetters, PayloadTally(id)) + Total(s.lost, PayloadTally(id))
  }

  function Unsent(s: State, id: JobId): nat {
    Total(s.pending, MessageTally(id))
  }

  /** An accepted job is in exactly one place; an unsent one is nowhere and waits only once. */
  ghost predicate Conserved(s: State) {
    && (forall id :: Places(s, id) == Tally(id in s.accepted))
    && (forall id :: Unsent(s, id) + Tally(id in s.accepted) <= Tally(id in s.book.submitted))
    && (!s.cancelled ==> s.lost == [])
  }

  lemma SendMoves(s: State, k: nat, id: JobId)
    requires k < |s.pending|
    ensures Places(SendStep(s, k), id) == Places(s, id) + Tally(Names(s.pending[k].payload, id))
    ensures Unsent(SendStep(s, k), id) == Unsent(s, id) - Tally(Names(s.pending[k].payload, id))
  {
    TotalWithout(s.pending, k, MessageTally(id));
    TotalAppend(s.jobs, s.pending[k], MessageTally(id));
  }

  lemma DeliverMoves(s: State, id: JobId)
    requires s.jobs != [] && s.control.Idle? && !s.jobs[0].payload.ResultPayload?
    ensures Places(DeliverStep(s), id) == Places(s, id)
  {
  }

  lemma ReplyMoves(s: State, ok: bool, id: JobId)
    requires s.control.Calling? && Names(s.control.raw.payload, id) == (s.control.job.id == id)
    ensures Places(ReplyStep(s, ok), id) == Places(s, id)
  {
    var s' := ReplyStep(s, ok);
    assert s'.jobs == s.jobs && s'.results == s.results && s'.lost == s.lost;
    TotalAppend(s.deadLetters, s.control.raw.payload, PayloadTally(id));
  }

  lemma PublishMoves(s: State, id: JobId)
    requires s.control.Sending?
    ensures Places(PublishStep(s), id) == Places(s, id)
  {
    TotalAppend(Channel(s, s.control.topic), s.control.outgoing, MessageTally(id));
  }

  /** Each step moves a job at most, and only a submitter's send adds one. */
  lemma StepMoves(s: State, e: Event, id: JobId)
    requires Routed(s) && Enabled(s, e)
    ensures Places(Apply(s, e), id)
            == Places(s, id) + Tally(e.Send? && Names(s.pending[e.k].payload, id))
    ensures Unsent(Apply(s, e), id)
            == Unsent(s, id) + Tally(e.Stamp? && Names(e.payload, id))
               - Tally((e.Send? || e.GiveUp?) && Names(s.pending[e.k].payload, id))
  {
    match e
    case Stamp(p) => TotalAppend(s.pending, Message(NextId(s), p, 1), MessageTally(id));
    case Send(k) => SendMoves(s, k, id);
    case GiveUp(k) => TotalWithout(s.pending, k, MessageTally(id));
    case Deliver => DeliverMoves(s, id);
    case Reply(ok) => ReplyMoves(s, ok, id);
    case Publish => PublishMoves(s, id);
    case Abandon => TotalAppend(s.lost, s.control.outgoing.payload, PayloadTally(id));
    case _ =>
  }

  lemma AcceptedAt(s: State, e: Event, id: JobId)
    requires Enabled(s, e)
    ensures Tally(id in Apply(s, e).accepted)
            == if e.Send? && s.pending[e.k].payload.JobPayload? && s.pending[e.k].payload.job.id == id then 1
               else Tally(id in s.accepted)
    ensures Tally(id in Apply(s, e).book.submitted)
            == if e.Stamp? && e.payload.JobPayload? && e.payload.job.id == id then 1 else Tally(id in s.book.submitted)
  {
  }

  lemma SendFresh(s: State, k: nat, id: JobId)
    requires Conserved(s) && k < |s.pending| && Names(s.pending[k].payload, id)
    ensures id !in s.accepted && Unsent(s, id) == 1
  {
    TotalMember(s.pending, s.pending[k], MessageTally(id));
    assert Unsent(s, id) + Tally(id in s.accepted) <= Tally(id in s.book.submitted);
  }

  lemma ConservedAt(s: State, e: Event, id: JobId)
    requires Conserved(s) && Routed(s) && Enabled(s, e)
    ensures Places(Apply(s, e), id) == Tally(id in Apply(s, e).accepted)
    ensures Unsent(Apply(s, e), id) + Tally(id in Apply(s, e).accepted) <= Tally(id in Apply(s, e).book.submitted)
  {
    StepMoves(s, e, id);
    AcceptedAt(s, e, id);
    assert Places(s, id) == Tally(id in s.accepted);
    assert Unsent(s, id) + Tally(id in s.accepted) <= Tally(id in s.book.submitted);
    if e.Send? && Names(s.pending[e.k].payload, id) {
      SendFresh(s, e.k, id);
    }
  }

  lemma ConservedStep(s: State, e: Event)
    requires Conserved(s) && Routed(s) && Enabled(s, e)
    ensures Conserved(Apply(s, e))
  {
    forall id
      ensures Places(Apply(s, e), id) == Tally(id in Apply(s, e).accepted)
      ensures Unsent(Apply(s, e), id) + Tally(id in Apply(s, e).accepted) <= Tally(id in Apply(s, e).book.submitted)
    {
      ConservedAt(s, e, id);
    }
  }

  // ---------------------------------------------------------------- what travels where

  /** Every delivery is a first delivery and no handler call reports failure. */
  ghost predicate Routed(s: State) {
    && (forall m :: m in s.pending ==> m.attempt == 1 && !m.payload.ResultPayload?)
    && (forall m :: m in s.jobs ==> m.attempt == 1 && !m.payload.ResultPayload?)
    && (forall m :: m in s.results ==> m.attempt == 1 && m.payload.ResultPayload?)
    && (forall p :: p in s.deadLetters ==> p.JobPayload?)
    && match s.control
       case Calling(raw, job) => raw.attempt == 1 && raw.payload == JobPayload(job.(attempt := job.attempt - 1))
       case Enqueuing(raw, topic, p) => raw.attempt == 1 && Suits(topic, p)
       case Sending(raw, topic, m) => raw.attempt == 1 && m.attempt == 1 && Suits(topic, m.payload)
       case Returned(raw, failed) => raw.attempt == 1 && !failed
       case _ => true
  }

  predicate Suits(topic: Topic, p: Payload) {
    if topic == Jobs then p.JobPayload? else p.ResultPayload?
  }

  lemma RoutedStep(s: State, e: Event)
    requires Routed(s) && Enabled(s, e)
    ensures Routed(Apply(s, e))
  {
  }

  // ---------------------------------------------------------------- what was done for each job

  /** The number of Predict calls a job may cause. */
  function Budget(job: Job): nat {
    if job.maxAttempts < 1 then 1 else job.maxAttempts
  }

  /** 1 + 2 + ... + r */
  function Triangle(r: nat): nat {
    if r == 0 then 0 else Triangle(r - 1) + r
  }

  lemma TriangleClosed(r: nat)
    ensures 2 * Triangle(r) == r * (r + 1)
  {
  }

  function Account(backoff: int, calls: nat, failures: nat, retries: nat): Ledger {
    Ledger(calls, failures, retries, backoff * Triangle(retries))
  }

  /** `job` is the submitted job with nothing but its attempt count changed. */
  ghost predicate Original(b: Book, job: Job) {
    job.id in b.submitted && b.submitted[job.id] == job.(attempt := 0)
  }

  /** A job awaiting its next call has failed exactly `attempt` times, fewer than its budget. */
  ghost predicate Waiting(b: Book, job: Job) {
    && Original(b, job)
    && 0 <= job.attempt < Budget(job)
    && b.Of(job.id) == Account(b.backoff, job.attempt, job.attempt, job.attempt)
  }

  ghost predicate InCall(b: Book, job: Job) {
    && Original(b, job)
    && 1 <= job.attempt <= Budget(job)
    && b.Of(job.id) == Account(b.backoff, job.attempt, job.attempt - 1, job.attempt - 1)
  }

  /** A finished job's last call is the only one that did not fail. */
  ghost predicate Finished(b: Book, id: JobId) {
    && id in b.submitted
    && var calls := b.Of(id).calls;
       && 1 <= calls <= Budget(b.submitted[id])
       && b.Of(id) == Account(b.backoff, calls, calls - 1, calls - 1)
  }

  /** A dead-lettered payload predates the last increment; every call of its budget failed. */
  ghost predicate Exhausted(b: Book, p: Payload) {
    && p.JobPayload?
    && Original(b, p.job)
    && p.job.attempt == Budget(p.job) - 1
    && b.Of(p.job.id) == Account(b.backoff, Budget(p.job), Budget(p.job), Budget(p.job) - 1)
  }

  ghost predicate Underway(b: Book, p: Payload) {
    match p
    case Malformed => true
    case JobPayload(job) => Waiting(b, job)
    case ResultPayload(id) => Finished(b, id)
  }

  ghost predicate ControlTracked(b: Book, c: Control) {
    match c
    case Calling(_, job) => InCall(b, job)
    case Enqueuing(_, _, p) => Underway(b, p)
    case Sending(_, _, m) => Underway(b, m.payload)
    case _ => true
  }

  ghost predicate AllUnderway(b: Book, ms: seq<Message>) {
    forall m :: m in ms ==> Underway(b, m.payload)
  }

  ghost predicate Tracked(s: State) {
    && AllUnderway(s.book, s.pending)
    && AllUnderway(s.book, s.jobs)
    && AllUnderway(s.book, s.results)
    && (forall p :: p in s.lost ==> Underway(s.book, p))
    && (forall p :: p in s.deadLetters ==> Exhausted(s.book, p))
    && s.book.ledgers.Keys <= s.accepted
    && ControlTracked(s.book, s.control)
  }

  /** Only the entry of one job differs. */
  ghost predicate Frame(b: Book, b': Book, id: JobId) {
    && b'.backoff == b.backoff
    && (forall j :: j in b.submitted && j != id ==> j in b'.submitted && b'.submitted[j] == b.submitted[j])
    && (forall j :: j != id ==> b'.Of(j) == b.Of(j))
  }

  lemma FrameMessages(b: Book, b': Book, id: JobId, ms: seq<Message>)
    requires Frame(b, b', id) && Total(ms, MessageTally(id)) == 0
    requires AllUnderway(b, ms)
    ensures AllUnderway(b', ms)
  {
  }

  lemma FramePayloads(b: Book, b': Book, id: JobId, ps: seq<Payload>)
    requires Frame(b, b', id) && Total(ps, PayloadTally(id)) == 0
    ensures (forall p :: p in ps ==> Underway(b, p)) ==> forall p :: p in ps ==> Underway(b', p)
    ensures (forall p :: p in ps ==> Exhausted(b, p)) ==> forall p :: p in ps ==> Exhausted(b', p)
  {
  }

  /** The job is in none of the sequences, with `channel` in the place of the jobs channel. */
  ghost predicate Nowhere(s: State, id: JobId, channel: seq<Message>) {
    && Unsent(s, id) == 0
    && Total(channel, MessageTally(id)) == 0
    && Total(s.results, MessageTally(id)) == 0
    && Total(s.deadLetters, PayloadTally(id)) == 0
    && Total(s.lost, PayloadTally(id)) == 0
  }

  lemma HeldIsNowhereElse(s: State, id: JobId)
    requires Conserved(s) && Held(s.control, id)
    ensures Nowhere(s, id, s.jobs) && id in s.accepted
  {
  }

  lemma HeadIsNowhereElse(s: State, id: JobId)
    requires Conserved(s) && s.jobs != [] && Names(s.jobs[0].payload, id)
    ensures Nowhere(s, id, s.jobs[1..]) && id in s.accepted
  {
  }

  lemma UnsubmittedIsNowhere(s: State, id: JobId)
    requires Conserved(s) && id !in s.book.submitted
    ensures Nowhere(s, id, s.jobs) && id !in s.accepted && !Held(s.control, id)
  {
  }

  /** Changing one job's entry keeps every fact about the others, wherever they are. */
  lemma FrameState(s: State, b': Book, id: JobId, channel: seq<Message>)
    requires Tracked(s) && Frame(s.book, b', id) && AllUnderway(s.book, channel) && Nowhere(s, id, channel)
    ensures AllUnderway(b', s.pending) && AllUnderway(b', channel) && AllUnderway(b', s.results)
    ensures forall p :: p in s.lost ==> Underway(b', p)
    ensures forall p :: p in s.deadLetters ==> Exhausted(b', p)
  {
    FrameMessages(s.book, b', id, s.pending);
    FrameMessages(s.book, b', id, channel);
    FrameMessages(s.book, b', id, s.results);
    FramePayloads(s.book, b', id, s.lost);
    FramePayloads(s.book, b', id, s.deadLetters);
  }

  lemma StampTracked(s: State, p: Payload)
    requires Tracked(s) && Submittable(s, p)
    requires p.JobPayload? ==> Nowhere(s, p.job.id, s.jobs) && p.job.id !in s.accepted && !Held(s.control, p.job.id)
    ensures Tracked(StampStep(s, p))
  {
    if p.JobPayload? {
      var id, b' := p.job.id, StampStep(s, p).book;
      FrameState(s, b', id, s.jobs);
      assert Waiting(b', p.job);
    }
  }

  lemma DeliverTracked(s: State)
    requires Routed(s) && Tracked(s) && s.control.Idle? && s.jobs != []
    requires forall id :: Names(s.jobs[0].payload, id) ==> Nowhere(s, id, s.jobs[1..]) && id in s.accepted
    ensures Tracked(DeliverStep(s))
  {
    var head := s.jobs[0].payload;
    assert Underway(s.book, head);
    if head.JobPayload? {
      var id, b' := head.job.id, DeliverStep(s).book;
      FrameState(s, b', id, s.jobs[1..]);
    }
  }

  /** The ledger entry a reply leaves behind is the one its next place calls for. */
  lemma ReplyEntry(b: Book, job: Job)
    requires InCall(b, job)
    ensures Finished(b, job.id)
    ensures var l := b.Of(job.id);
            if job.attempt >= job.maxAttempts then
              Exhausted(b.Enter(job.id, l.(failures := l.failures + 1)), JobPayload(job.(attempt := job.attempt - 1)))
            else
              Waiting(b.Enter(job.id, Ledger(l.calls, l.failures + 1, l.retries + 1, l.slept + b.backoff * job.attempt)), job)
  {
  }

  lemma ReplyTracked(s: State, ok: bool)
    requires Routed(s) && Tracked(s) && s.control.Calling?
    requires Nowhere(s, s.control.job.id, s.jobs) && s.control.job.id in s.accepted
    ensures Tracked(ReplyStep(s, ok))
  {
    var job := s.control.job;
    FrameState(s, ReplyStep(s, ok).book, job.id, s.jobs);
    ReplyEntry(s.book, job);
  }

  lemma TrackedStep(s: State, e: Event)
    requires Conserved(s) && Routed(s) && Tracked(s) && Enabled(s, e)
    ensures Tracked(Apply(s, e))
  {
    match e
    case Stamp(p) =>
      if p.JobPayload? { UnsubmittedIsNowhere(s, p.job.id); }
      StampTracked(s, p);
    case Deliver =>
      forall id | Names(s.jobs[0].payload, id) ensures Nowhere(s, id, s.jobs[1..]) && id in s.accepted {
        HeadIsNowhereElse(s, id);
      }
      DeliverTracked(s);
    case Reply(ok) =>
      HeldIsNowhereElse(s, s.control.job.id);
      ReplyTracked(s, ok);
    case _ =>
  }

  // ---------------------------------------------------------------- message identity

  function IdTally(x: MessageId): Message -> nat {
    (m: Message) => Tally(m.id == x)
  }

  /** Messages with this ID that are stamped, queued or being sent. */
  function Carrying(s: State, x: MessageId): nat {
    Total(s.pending, IdTally(x)) + Total(s.jobs, IdTally(x)) + Total(s.results, IdTally(x))
    + Tally(s.control.Sending? && s.control.outgoing.id == x)
  }

  /** The n-th ID handed out is the text of n, and no ID is on two messages at once. */
  ghost predicate Identified(s: State) {
    && |s.issued| == s.seqNo
    && (forall i :: 0 <= i < s.seqNo ==> s.issued[i] == MessageId(Decimal.Text(i + 1)))
    && (forall x :: Carrying(s, x) <= Tally(x in s.issued))
  }

  lemma NextIdIsNew(s: State)
    requires Identified(s)
    ensures NextId(s) !in s.issued
  {
    if NextId(s) in s.issued {
      var i :| 0 <= i < s.seqNo && s.issued[i] == NextId(s);
      Decimal.TextInjective(i + 1, s.seqNo + 1);
    }
  }

  lemma CarryingStep(s: State, e: Event, x: MessageId)
    requires Routed(s) && Enabled(s, e)
    ensures Carrying(Apply(s, e), x) <= Carrying(s, x) + Tally((e.Stamp? || e.TakeNumber?) && x == NextId(s))
  {
    match e
    case Stamp(p) => TotalAppend(s.pending, Message(NextId(s), p, 1), IdTally(x));
    case Send(k) =>
      TotalWithout(s.pending, k, IdTally(x));
      TotalAppend(s.jobs, s.pending[k], IdTally(x));
    case GiveUp(k) => TotalWithout(s.pending, k, IdTally(x));
    case Publish => TotalAppend(Channel(s, s.control.topic), s.control.outgoing, IdTally(x));
    case _ =>
  }

  lemma IssuedStep(s: State, e: Event)
    requires Enabled(s, e)
    ensures var s' := Apply(s, e);
            if e.Stamp? || e.TakeNumber? then s'.seqNo == s.seqNo + 1 && s'.issued == s.issued + [NextId(s)]
            else s'.seqNo == s.seqNo && s'.issued == s.issued
  {
  }

  lemma IdentifiedStep(s: State, e: Event)
    requires Identified(s) && Routed(s) && Enabled(s, e)
    ensures Identified(Apply(s, e))
  {
    NextIdIsNew(s);
    IssuedStep(s, e);
    forall x ensures Carrying(Apply(s, e), x) <= Tally(x in Apply(s, e).issued) {
      CarryingStep(s, e, x);
      assert Carrying(s, x) <= Tally(x in s.issued);
    }
  }

  // ---------------------------------------------------------------- counters

  predicate Busy(c: Control) {
    c.Calling? || c.Enqueuing? || c.Sending?
  }

  predicate HoldsResult(c: Control) {
    (c.Enqueuing? || c.Sending?) && c.topic == Results
  }

  ghost predicate Counted(s: State) {
    var c := s.counters;
    && c.failed == c.retried + c.deadLettered
    && s.predictCalls == c.processed + c.failed + Tally(s.control.Calling?)
    && |s.deadLetters| == c.deadLettered
    && (!s.cancelled ==> c.processed == |s.results| + Tally(HoldsResult(s.control)))
    && |s.jobs| <= CAPACITY && |s.results| <= CAPACITY
    && (s.control.Stopped? ==> s.cancelled)
    && s.arrivals == |s.jobs| + Tally(Busy(s.control)) + |s.results| + |s.deadLetters| + |s.lost| + s.dropped
  }

  lemma CountedReply(s: State, ok: bool)
    requires Counted(s) && s.control.Calling?
    ensures Counted(ReplyStep(s, ok))
  {
  }

  lemma CountedDeliver(s: State)
    requires Counted(s) && s.control.Idle? && s.jobs != []
    ensures Counted(DeliverStep(s))
  {
  }

  lemma CountedStep(s: State, e: Event)
    requires Counted(s) && Routed(s) && Enabled(s, e)
    ensures Counted(Apply(s, e))
  {
    match e
    case Deliver => CountedDeliver(s);
    case Reply(ok) => CountedReply(s, ok);
    case _ =>
  }

  // ---------------------------------------------------------------- every run

  ghost predicate Inv(s: State) {
    Conserved(s) && Routed(s) && Tracked(s) && Identified(s) && Counted(s)
  }

  lemma InvStep(s: State, e: Event)
    requires Inv(s) && Enabled(s, e)
    ensures Inv(Apply(s, e))
  {
    ConservedStep(s, e);
    RoutedStep(s, e);
    TrackedStep(s, e);
    IdentifiedStep(s, e);
    CountedStep(s, e);
  }

  lemma BackoffFixed(s: State, e: Event)
    requires Enabled(s, e)
    ensures Apply(s, e).book.backoff == s.book.backoff
  {
  }

  lemma {:induction false} InvRun(s: State, es: seq<Event>)
    requires Inv(s) && ValidRun(s, es)
    ensures Inv(After(s, es)) && After(s, es).book.backoff == s.book.backoff
    decreases |es|
  {
    if es != [] {
      InvStep(s, es[0]);
      BackoffFixed(s, es[0]);
      InvRun(Apply(s, es[0]), es[1..]);
    }
  }

  /** The invariant holds after every run, of every length and interleaving. */
  lemma Reachable(backoff: int, es: seq<Event>)
    requires ValidRun(Initial(backoff), es)
    ensures Inv(After(Initial(backoff), es)) && After(Initial(backoff), es).book.backoff == backoff
  {
    InvRun(Initial(backoff), es);
  }

  /**
   * Conservation: after every run an accepted job occurs exactly once among jobs
   * channel, handler, results, dead letters and lost list, any other job not at
   * all, and nothing is lost before the dispatcher's context is cancelled.
   */
  lemma JobConservation(backoff: int, es: seq<Event>, id: JobId)
    requires ValidRun(Initial(backoff), es)
    ensures var s := After(Initial(backoff), es);
            && Places(s, id) == Tally(id in s.accepted)
            && (!s.cancelled ==> s.lost == [])
            && s.accepted <= s.book.submitted.Keys
  {
    Reachable(backoff, es);
    var s := After(Initial(backoff), es);
    assert Places(s, id) == Tally(id in s.accepted);
    forall j | j in s.accepted ensures j in s.book.submitted {
      assert Unsent(s, j) + Tally(j in s.accepted) <= Tally(j in s.book.submitted);
    }
  }

  /** Calls stay within the budget; r retries slept backoff * r(r+1)/2 in all. */
  ghost predicate WithinBudget(b: Book, id: JobId) {
    && id in b.submitted
    && var l := b.Of(id);
       l.calls <= Budget(b.submitted[id]) && 2 * l.slept == b.backoff * (l.retries * (l.retries + 1))
  }

  lemma AccountWithinBudget(b: Book, id: JobId)
    requires id in b.submitted && b.Of(id).calls <= Budget(b.submitted[id])
    requires b.Of(id).slept == b.backoff * Triangle(b.Of(id).retries)
    ensures WithinBudget(b, id)
  {
    var r := b.Of(id).retries;
    TriangleClosed(r);
    assert 2 * (b.backoff * Triangle(r)) == b.backoff * (2 * Triangle(r));
  }

  lemma PayloadWithinBudget(b: Book, p: Payload, id: JobId)
    requires Names(p, id) && (Underway(b, p) || Exhausted(b, p))
    ensures WithinBudget(b, id)
  {
    AccountWithinBudget(b, id);
  }

  /** Every submitted job, wherever it is, is within its budget. */
  lemma JobWithinBudget(s: State, id: JobId)
    requires Tracked(s) && id in s.book.submitted && Places(s, id) == Tally(id in s.accepted)
    ensures WithinBudget(s.book, id)
  {
    if Total(s.jobs, MessageTally(id)) > 0 {
      var m := TotalWitness(s.jobs, MessageTally(id));
      PayloadWithinBudget(s.book, m.payload, id);
    } else if Total(s.results, MessageTally(id)) > 0 {
      var m := TotalWitness(s.results, MessageTally(id));
      PayloadWithinBudget(s.book, m.payload, id);
    } else if Total(s.deadLetters, PayloadTally(id)) > 0 {
      var p := TotalWitness(s.deadLetters, PayloadTally(id));
      PayloadWithinBudget(s.book, p, id);
    } else if Total(s.lost, PayloadTally(id)) > 0 {
      var p := TotalWitness(s.lost, PayloadTally(id));
      PayloadWithinBudget(s.book, p, id);
    } else {
      AccountWithinBudget(s.book, id);
    }
  }

  /**
   * A dead letter's job made max(1, MaxAttempts) calls, all failed; its payload
   * carries the attempt count from before the last increment; it slept
   * backoff * M(M-1)/2.
   */
  ghost predicate DeadLetterExact(b: Book, p: Payload) {
    && p.JobPayload? && p.job.id in b.submitted
    && var job := b.submitted[p.job.id];
       var l := b.Of(job.id);
       && p.job == job.(attempt := Budget(job) - 1)
       && l.calls == l.failures == Budget(job)
       && 2 * l.slept == b.backoff * (Budget(job) * (Budget(job) - 1))
  }

  lemma ExhaustedIsExact(b: Book, p: Payload)
    requires Exhausted(b, p)
    ensures DeadLetterExact(b, p)
  {
    var r := Budget(p.job) - 1;
    TriangleClosed(r);
    assert 2 * (b.backoff * Triangle(r)) == b.backoff * (2 * Triangle(r));
  }

  /** Bounded attempts: at most max(1, MaxAttempts) Predict calls per job, exactly that many for a dead letter. */
  lemma BoundedAttempts(backoff: int, es: seq<Event>)
    requires ValidRun(Initial(backoff), es)
    ensures var s := After(Initial(backoff), es);
            && s.book.backoff == backoff
            && (forall id :: id in s.book.submitted ==> WithinBudget(s.book, id))
            && (forall p :: p in s.deadLetters ==> DeadLetterExact(s.book, p))
  {
    Reachable(backoff, es);
    var s := After(Initial(backoff), es);
    forall id | id in s.book.submitted ensures WithinBudget(s.book, id) {
      assert Places(s, id) == Tally(id in s.accepted);
      JobWithinBudget(s, id);
    }
    forall p | p in s.deadLetters ensures DeadLetterExact(s.book, p) {
      assert Exhausted(s.book, p);
      ExhaustedIsExact(s.book, p);
    }
  }

  /** Every delivery is the message's first: the queue's redelivery branch never fires. */
  lemma FirstDeliveryOnly(backoff: int, es: seq<Event>)
    requires ValidRun(Initial(backoff), es)
    ensures var s := After(Initial(backoff), es);
            && (forall m :: m in s.jobs ==> m.attempt == 1)
            && (s.control.Returned? ==> !s.control.failed && ReturnStep(s) == s.(control := Idle))
  {
    Reachable(backoff, es);
  }

  /** All IDs handed out in a run differ, on whatever topic they are used. */
  lemma DistinctIds(backoff: int, es: seq<Event>)
    requires ValidRun(Initial(backoff), es)
    ensures var s := After(Initial(backoff), es);
            && (forall i, j :: 0 <= i < j < |s.issued| ==> s.issued[i] != s.issued[j])
            && (forall x :: Carrying(s, x) <= Tally(x in s.issued))
  {
    Reachable(backoff, es);
    var s := After(Initial(backoff), es);
    forall i, j | 0 <= i < j < |s.issued| ensures s.issued[i] != s.issued[j] {
      if s.issued[i] == s.issued[j] {
        Decimal.TextInjective(i + 1, j + 1);
      }
    }
  }

  /** Between handler calls the counters account for every Predict call and every dead letter. */
  lemma CounterLaws(backoff: int, es: seq<Event>)
    requires ValidRun(Initial(backoff), es)
    ensures var s := After(Initial(backoff), es);
            && s.counters.failed == s.counters.retried + s.counters.deadLettered
            && |s.deadLetters| == s.counters.deadLettered
            && (!s.control.Calling? ==> s.counters.processed + s.counters.failed == s.predictCalls)
  {
    Reachable(backoff, es);
  }
}
