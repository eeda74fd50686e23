/** Draining, blocking and the states the dispatcher can never leave. */
module SchedulerProgress {
  import opened Bags
  import opened Scheduler
  import opened SchedulerSafety
  import Decimal

  // ---------------------------------------------------------------- draining

  /** Calls a payload may still cause; everything else costs one. */
  function Weight(p: Payload): nat {
    if p.JobPayload? && p.job.attempt < Budget(p.job) then Budget(p.job) - p.job.attempt else 1
  }

  function MessageWeight(m: Message): nat {
    Weight(m.payload)
  }

  function ControlFuel(c: Control): nat {
    match c
    case Stopped => 0
    case Idle => 1
    case Returned(_, _) => 2
    case Sending(_, topic, m) => 3 + (if topic == Jobs then 5 * Weight(m.payload) else 0)
    case Enqueuing(_, topic, p) => 4 + (if topic == Jobs then 5 * Weight(p) else 0)
    case Calling(raw, _) => 5 * Weight(raw.payload)
  }

  /** An upper bound on the steps left if nobody submits anything more. */
  function Fuel(s: State): nat {
    6 * Total(s.pending, MessageWeight) + 5 * Total(s.jobs, MessageWeight) + ControlFuel(s.control)
  }

  lemma FuelReply(s: State, ok: bool)
    requires s.control.Calling? && s.control.raw.payload == JobPayload(s.control.job.(attempt := s.control.job.attempt - 1))
    ensures Fuel(ReplyStep(s, ok)) < Fuel(s)
  {
    assert ReplyStep(s, ok).jobs == s.jobs && ReplyStep(s, ok).pending == s.pending;
  }

  lemma FuelDeliver(s: State)
    requires Routed(s) && s.control.Idle? && s.jobs != []
    ensures Fuel(DeliverStep(s)) < Fuel(s)
  {
  }

  lemma FuelFalls(s: State, e: Event)
    requires Routed(s) && Enabled(s, e) && !e.Stamp?
    ensures if e.Cancel? then Fuel(Apply(s, e)) == Fuel(s) else Fuel(Apply(s, e)) < Fuel(s)
  {
    match e
    case Send(k) =>
      TotalWithout(s.pending, k, MessageWeight);
      TotalAppend(s.jobs, s.pending[k], MessageWeight);
    case GiveUp(k) => TotalWithout(s.pending, k, MessageWeight);
    case Deliver => FuelDeliver(s);
    case Reply(ok) => FuelReply(s, ok);
    case Publish => TotalAppend(s.jobs, s.control.outgoing, MessageWeight);
    case _ =>
  }

  predicate NoSubmissions(es: seq<Event>) {
    forall e :: e in es ==> !e.Stamp?
  }

  function Cancels(es: seq<Event>): nat {
    if es == [] then 0 else (if es[0].Cancel? then 1 else 0) + Cancels(es[1..])
  }

  lemma {:induction false} FuelBound(s: State, es: seq<Event>)
    requires Inv(s) && ValidRun(s, es) && NoSubmissions(es)
    ensures |es| - Cancels(es) + Fuel(After(s, es)) <= Fuel(s)
    decreases |es|
  {
    if es != [] {
      FuelFalls(s, es[0]);
      InvStep(s, es[0]);
      FuelBound(Apply(s, es[0]), es[1..]);
    }
  }

  // ---------------------------------------------------------------- calls left

  /** Calls a payload still allows: max(1, MaxAttempts) less its attempts, for a job. */
  function CallsAllowed(p: Payload): nat {
    if p.JobPayload? then Weight(p) else 0
  }

  function MessageCalls(m: Message): nat {
    CallsAllowed(m.payload)
  }

  /** The call under way has been made; the ones after it have not. */
  function ControlCalls(c: Control): nat {
    match c
    case Calling(raw, _) => if CallsAllowed(raw.payload) > 0 then CallsAllowed(raw.payload) - 1 else 0
    case Enqueuing(_, _, p) => CallsAllowed(p)
    case Sending(_, _, m) => MessageCalls(m)
    case _ => 0
  }

  /** The calls still allowed to all live jobs together. */
  function CallsLeft(s: State): nat {
    Total(s.pending, MessageCalls) + Total(s.jobs, MessageCalls) + ControlCalls(s.control)
  }

  lemma CallsReply(s: State, ok: bool)
    requires s.control.Calling? && s.control.raw.payload == JobPayload(s.control.job.(attempt := s.control.job.attempt - 1))
    ensures CallsLeft(ReplyStep(s, ok)) <= CallsLeft(s)
  {
    assert ReplyStep(s, ok).jobs == s.jobs && ReplyStep(s, ok).pending == s.pending;
  }

  /** Delivering a job takes exactly one call from those left; nothing but a submission adds any. */
  lemma CallsStep(s: State, e: Event)
    requires Routed(s) && Enabled(s, e) && !e.Stamp?
    ensures CallsLeft(Apply(s, e)) + Apply(s, e).predictCalls <= CallsLeft(s) + s.predictCalls
    ensures e.Deliver? && s.jobs[0].payload.JobPayload? ==> CallsLeft(Apply(s, e)) == CallsLeft(s) - 1
    ensures Apply(s, e).predictCalls
            == s.predictCalls + Tally(e.Deliver? && s.jobs[0].payload.JobPayload?)
  {
    match e
    case Send(k) =>
      TotalWithout(s.pending, k, MessageCalls);
      TotalAppend(s.jobs, s.pending[k], MessageCalls);
    case GiveUp(k) => TotalWithout(s.pending, k, MessageCalls);
    case Reply(ok) => CallsReply(s, ok);
    case Publish => TotalAppend(s.jobs, s.control.outgoing, MessageCalls);
    case _ =>
  }

  /** Without submissions, the calls made come out of the calls left. */
  lemma {:induction false} CallsBound(s: State, es: seq<Event>)
    requires Inv(s) && ValidRun(s, es) && NoSubmissions(es)
    ensures After(s, es).predictCalls - s.predictCalls <= CallsLeft(s) - CallsLeft(After(s, es))
    decreases |es|
  {
    if es != [] {
      CallsStep(s, es[0]);
      InvStep(s, es[0]);
      CallsBound(Apply(s, es[0]), es[1..]);
    }
  }

  // ---------------------------------------------------------------- stopping

  predicate OfDispatcher(e: Event) {
    e.Deliver? || e.Reply? || e.TakeNumber? || e.Publish? || e.Abandon? || e.Return? || e.Stop?
  }

  /** The dispatcher has nothing to do next, whatever submitters are doing. */
  ghost predicate DispatcherStuck(s: State) {
    forall e :: OfDispatcher(e) ==> !Enabled(s, e)
  }

  /** The dispatcher selects in Enqueue on a full channel with its context still open. */
  predicate Wedged(s: State) {
    s.control.Sending? && !s.cancelled && |Channel(s, s.control.topic)| >= CAPACITY
  }

  predicate Idling(s: State) {
    s.control.Idle? && s.jobs == [] && !s.cancelled
  }

  /** The dispatcher is stuck exactly when it waits on a full channel, has stopped, or idles on an empty channel. */
  lemma StuckShape(s: State)
    ensures DispatcherStuck(s) <==> Wedged(s) || s.control.Stopped? || Idling(s)
  {
    if DispatcherStuck(s) {
      assert !Enabled(s, Deliver) && !Enabled(s, Reply(true)) && !Enabled(s, TakeNumber) && !Enabled(s, Publish);
      assert !Enabled(s, Abandon) && !Enabled(s, Return) && !Enabled(s, Stop);
    }
  }

  /** Nothing can happen any more but a submission, a cancellation, or a waiting submitter's giving up. */
  ghost predicate Quiescent(s: State) {
    forall e :: Enabled(s, e) ==> e.Stamp? || e.Cancel? || e.GiveUp?
  }

  /** Messages in the jobs channel or inside the handler. */
  function Live(s: State): nat {
    |s.jobs| + Tally(Busy(s.control))
  }

  /** A send of the dispatcher waits only with more than 1024 live messages, or 1024 unread results. */
  lemma BlockingNeedsLoad(s: State)
    requires Inv(s) && Wedged(s)
    ensures if s.control.topic == Jobs then Live(s) == 1025 else |s.results| == 1024
    ensures s.arrivals > 1024
  {
  }

  predicate Completed(s: State, id: JobId) {
    Total(s.results, MessageTally(id)) + Total(s.deadLetters, PayloadTally(id)) == 1
  }

  /** Every accepted job has a result or is dead-lettered, exactly once. */
  ghost predicate AllCompleted(s: State) {
    forall id :: id in s.accepted ==> Completed(s, id)
  }

  /** The job a wedged dispatcher holds has been accepted and is not completed. */
  lemma WedgedHoldsAJob(s: State)
    requires Inv(s) && Wedged(s)
    ensures !AllCompleted(s)
  {
    var p := s.control.outgoing.payload;
    var id := if p.JobPayload? then p.job.id else p.jobId;
    HeldIsNowhereElse(s, id);
    assert !Completed(s, id);
  }

  /** At a quiescent end that was not cancelled, everything accepted is completed exactly if no send waits. */
  lemma CompletedUnlessWedged(s: State)
    requires Inv(s) && Quiescent(s) && !s.cancelled
    ensures AllCompleted(s) <==> !Wedged(s)
    ensures !Wedged(s) ==> s.pending == [] && Idling(s)
  {
    if Wedged(s) {
      WedgedHoldsAJob(s);
    } else {
      StuckShape(s);
      assert !Enabled(s, Send(0));
      forall id | id in s.accepted ensures Completed(s, id) {
        assert Places(s, id) == Tally(id in s.accepted);
      }
    }
  }

  /**
   * Drain: from any reachable state, a run without new submissions takes at most
   * Fuel steps besides cancellations; and where it ends quiescent and uncancelled,
   * every accepted job has a result or is dead-lettered, exactly once, if and only
   * if the dispatcher is not waiting on a full channel.
   */
  lemma Drains(backoff: int, es: seq<Event>, fs: seq<Event>)
    requires ValidRun(Initial(backoff), es) && ValidRun(After(Initial(backoff), es), fs) && NoSubmissions(fs)
    ensures var s := After(Initial(backoff), es);
            var t := After(s, fs);
            && |fs| - Cancels(fs) <= Fuel(s)
            && t.predictCalls - s.predictCalls <= CallsLeft(s)
            && (Quiescent(t) && !t.cancelled ==> (AllCompleted(t) <==> !Wedged(t)))
  {
    var s := After(Initial(backoff), es);
    var t := After(s, fs);
    Reachable(backoff, es);
    InvRun(s, fs);
    FuelBound(s, fs);
    CallsBound(s, fs);
    if Quiescent(t) && !t.cancelled {
      CompletedUnlessWedged(t);
    }
  }

  /** A run that ends quiescent and uncancelled, with at most n messages arrived, completes every accepted job. */
  ghost predicate CompletesUpTo(backoff: int, n: nat, es: seq<Event>) {
    ValidRun(Initial(backoff), es) ==>
      var t := After(Initial(backoff), es);
      Quiescent(t) && !t.cancelled && t.arrivals <= n ==> AllCompleted(t)
  }

  // ---------------------------------------------------------------- wedging

  /** A wedged dispatcher stays wedged, and finishes nothing, until it is cancelled. */
  lemma {:induction false} WedgedForever(s: State, es: seq<Event>)
    requires Wedged(s) && ValidRun(s, es) && Cancel !in es
    ensures var t := After(s, es);
            && Wedged(t) && t.control == s.control && t.counters == s.counters
            && t.results == s.results && t.deadLetters == s.deadLetters && t.lost == s.lost
            && (s.control.topic == Jobs ==> t.jobs == s.jobs)
    decreases |es|
  {
    if es != [] {
      assert es[0] in es;
      WedgedForever(Apply(s, es[0]), es[1..]);
    }
  }

  /** Nothing consumes results, so an uncancelled dispatcher processes at most 1025 jobs, ever. */
  lemma ThroughputCeiling(backoff: int, es: seq<Event>)
    requires ValidRun(Initial(backoff), es) && !After(Initial(backoff), es).cancelled
    ensures var s := After(Initial(backoff), es);
            && s.counters.processed <= 1025
            && (s.counters.processed == 1025 && !s.control.Enqueuing? ==> Wedged(s))
  {
    Reachable(backoff, es);
  }

  function SampleJob(n: nat): Payload {
    JobPayload(Job(Uuid(Decimal.Text(n)), Body("m", [], ""), 0, 3))
  }

  /** Submit n jobs one after another. */
  function Fill(n: nat): seq<Event> {
    if n == 0 then [] else Fill(n - 1) + [Stamp(SampleJob(n))] + [Send(0)]
  }

  ghost predicate Filled(s: State, n: nat) {
    && s.pending == [] && s.control == Idle && !s.cancelled && |s.jobs| == s.arrivals == n
    && (forall m :: m in s.jobs ==> m.payload.JobPayload? && m.payload.job.attempt == 0 && m.payload.job.maxAttempts == 3)
    && (forall k: nat :: Uuid(Decimal.Text(k)) in s.book.submitted ==> k <= n)
  }

  lemma SubmitOne(s: State, n: nat)
    requires Filled(s, n) && n < CAPACITY
    ensures Enabled(s, Stamp(SampleJob(n + 1)))
    ensures Enabled(StampStep(s, SampleJob(n + 1)), Send(0))
    ensures Filled(SendStep(StampStep(s, SampleJob(n + 1)), 0), n + 1)
  {
    var t := SendStep(StampStep(s, SampleJob(n + 1)), 0);
    forall k: nat | Uuid(Decimal.Text(k)) in t.book.submitted ensures k <= n + 1 {
      if Decimal.Text(k) == Decimal.Text(n + 1) {
        Decimal.TextInjective(k, n + 1);
      }
    }
  }

  lemma {:induction false} FillRun(backoff: int, n: nat)
    requires n <= CAPACITY
    ensures ValidRun(Initial(backoff), Fill(n)) && Filled(After(Initial(backoff), Fill(n)), n)
  {
    if n > 0 {
      FillRun(backoff, n - 1);
      SubmitOne(After(Initial(backoff), Fill(n - 1)), n - 1);
      RunAppend(Initial(backoff), Fill(n - 1), Stamp(SampleJob(n)));
      RunAppend(Initial(backoff), Fill(n - 1) + [Stamp(SampleJob(n))], Send(0));
    }
  }

  /** From a full channel: take one job, refill its slot, fail the call, and try to requeue. */
  lemma WedgeSteps(s: State)
    requires Filled(s, CAPACITY)
    ensures Enabled(s, Deliver)
    ensures var a := DeliverStep(s); Enabled(a, Stamp(SampleJob(CAPACITY + 1)))
    ensures var b := StampStep(DeliverStep(s), SampleJob(CAPACITY + 1)); Enabled(b, Send(0))
    ensures var c := SendStep(StampStep(DeliverStep(s), SampleJob(CAPACITY + 1)), 0); Enabled(c, Reply(false))
    ensures var d := ReplyStep(SendStep(StampStep(DeliverStep(s), SampleJob(CAPACITY + 1)), 0), false);
            && Enabled(d, TakeNumber) && Wedged(TakeNumberStep(d)) && TakeNumberStep(d).control.topic == Jobs
            && d.arrivals == CAPACITY + 1
  {
  }

  lemma WedgeRun(backoff: int) returns (es: seq<Event>)
    ensures ValidRun(Initial(backoff), es)
    ensures var t := After(Initial(backoff), es);
            Wedged(t) && t.control.topic == Jobs && t.arrivals == CAPACITY + 1
  {
    FillRun(backoff, CAPACITY);
    es := Fill(CAPACITY);
    WedgeSteps(After(Initial(backoff), es));
    RunAppend(Initial(backoff), es, Deliver);
    es := es + [Deliver];
    RunAppend(Initial(backoff), es, Stamp(SampleJob(CAPACITY + 1)));
    es := es + [Stamp(SampleJob(CAPACITY + 1))];
    RunAppend(Initial(backoff), es, Send(0));
    es := es + [Send(0)];
    RunAppend(Initial(backoff), es, Reply(false));
    es := es + [Reply(false)];
    RunAppend(Initial(backoff), es, TakeNumber);
    es := es + [TakeNumber];
  }

  /**
   * One message beyond 1024 suffices: a run with 1025 arrivals after which nothing
   * can happen, the only consumer waits for room in its own channel, and an
   * accepted job is left incomplete.
   */
  lemma SelfDeadlock(backoff: int) returns (es: seq<Event>)
    ensures ValidRun(Initial(backoff), es)
    ensures var t := After(Initial(backoff), es);
            && Wedged(t) && t.control.topic == Jobs && t.arrivals == 1025
            && Quiescent(t) && !AllCompleted(t)
  {
    es := WedgeRun(backoff);
    Reachable(backoff, es);
    WedgedHoldsAJob(After(Initial(backoff), es));
  }

  /** Every run with at most n arrivals completes what it accepted if and only if n is at most 1024. */
  lemma CompletionBound(backoff: int, n: nat)
    ensures (forall es :: CompletesUpTo(backoff, n, es)) <==> n <= 1024
  {
    if n <= CAPACITY {
      forall es ensures CompletesUpTo(backoff, n, es) {
        CompletesWithin(backoff, n, es);
      }
    } else {
      var es := SelfDeadlock(backoff);
      assert !CompletesUpTo(backoff, n, es);
    }
  }

  lemma CompletesWithin(backoff: int, n: nat, es: seq<Event>)
    requires n <= CAPACITY
    ensures CompletesUpTo(backoff, n, es)
  {
    if ValidRun(Initial(backoff), es) {
      var t := After(Initial(backoff), es);
      Reachable(backoff, es);
      if Quiescent(t) && !t.cancelled && t.arrivals <= n {
        CompletedUnlessWedged(t);
        if Wedged(t) {
          BlockingNeedsLoad(t);
        }
      }
    }
  }
}
