/** The heartbeat registry and the router's Predict and RegisterWorker, over shared worker objects. */
module RouterPool {
  import opened Wrappers
  import opened Selector

  // ---------------------------------------------------------------- histories

  datatype Event =
    | Registered(info: Info, at: int)
    | Beat(id: string, latency: int, inFlight: int, at: int)

  function About(e: Event): string {
    if e.Registered? then e.info.id else e.id
  }

  /** What the events so far say about a worker; heartbeats before registration say nothing. */
  function Known(h: seq<Event>, id: string): Option<Info> {
    if h == [] then None
    else
      var before := Known(h[..|h| - 1], id);
      match h[|h| - 1]
      case Registered(info, at) => if info.id == id then Some(info.(beat := at)) else before
      case Beat(i, latency, inFlight, at) =>
        if i == id && before.Some? then Some(before.value.(latency := latency, inFlight := inFlight, beat := at))
        else before
  }

  lemma KnownAppend(h: seq<Event>, e: Event, id: string)
    ensures Known(h + [e], id)
            == match e
               case Registered(info, at) => if info.id == id then Some(info.(beat := at)) else Known(h, id)
               case Beat(i, latency, inFlight, at) =>
                 if i == id && Known(h, id).Some?
                 then Some(Known(h, id).value.(latency := latency, inFlight := inFlight, beat := at))
                 else Known(h, id)
  {
  }

  predicate Monotone(h: seq<Event>) {
    forall i, j :: 0 <= i < j < |h| ==> h[i].at <= h[j].at
  }

  predicate WasRegistered(h: seq<Event>, id: string) {
    exists i :: 0 <= i < |h| && h[i].Registered? && h[i].info.id == id
  }

  /** The i-th event is the last one about this worker. */
  predicate Latest(h: seq<Event>, id: string, i: nat) {
    i < |h| && About(h[i]) == id && forall j :: i < j < |h| ==> About(h[j]) != id
  }

  /** Known means registered at some time. */
  lemma {:induction false} KnownMeansRegistered(h: seq<Event>, id: string)
    ensures Known(h, id).Some? <==> WasRegistered(h, id)
  {
    if h != [] {
      var n := |h| - 1;
      KnownMeansRegistered(h[..n], id);
      assert forall i :: 0 <= i < n ==> h[..n][i] == h[i];
    }
  }

  /**
   * A known worker's beat, latency and load are those of the latest event about
   * it: its last heartbeat since its latest registration, else that registration.
   */
  lemma {:induction false} KnownMeaning(h: seq<Event>, id: string) returns (i: nat)
    requires Known(h, id).Some?
    ensures Latest(h, id, i) && Known(h, id).value.id == id && Known(h, id).value.beat == h[i].at
    ensures match h[i]
            case Registered(info, at) => Known(h, id) == Some(info.(beat := at))
            case Beat(_, latency, load, _) => Known(h, id).value.latency == latency && Known(h, id).value.inFlight == load
  {
    var n := |h| - 1;
    if About(h[n]) == id {
      i := n;
      if h[n].Beat? {
        var _ := KnownMeaning(h[..n], id);
      }
    } else {
      i := KnownMeaning(h[..n], id);
      assert h[..n][i] == h[i] && forall j :: i < j < n ==> h[..n][j] == h[j];
    }
  }

  /** Registrations come without latency or load, heartbeats without load. */
  predicate Plain(h: seq<Event>) {
    forall i :: 0 <= i < |h| ==>
      if h[i].Registered? then h[i].info.latency == 0 && h[i].info.inFlight == 0 else h[i].inFlight == 0
  }

  /** The latency an event leaves its worker with in a plain history. */
  function LatencyLeft(e: Event): int {
    if e.Beat? then e.latency else 0
  }

  /**
   * In a plain history a known worker has load 0, and its latency is that of the
   * last heartbeat since its latest registration, or 0 if there is none.
   */
  lemma PlainMeaning(h: seq<Event>, id: string) returns (i: nat)
    requires Plain(h) && Known(h, id).Some?
    ensures Latest(h, id, i)
    ensures Known(h, id).value.latency == LatencyLeft(h[i]) && Known(h, id).value.inFlight == 0
  {
    i := KnownMeaning(h, id);
  }

  predicate Fresh(w: Info, cutoff: int) {
    w.beat > cutoff
  }

  /**
   * Liveness: under a clock that does not run backwards a worker is live at t
   * exactly if it was registered and some registration or heartbeat of it is
   * later than t - staleAfter.
   */
  lemma LivenessMeaning(h: seq<Event>, id: string, cutoff: int)
    requires Monotone(h)
    ensures Known(h, id).Some? && Fresh(Known(h, id).value, cutoff)
            <==> WasRegistered(h, id) && exists i :: 0 <= i < |h| && About(h[i]) == id && h[i].at > cutoff
  {
    KnownMeansRegistered(h, id);
    if Known(h, id).Some? {
      var i := KnownMeaning(h, id);
      if j :| 0 <= j < |h| && About(h[j]) == id && h[j].at > cutoff {
        assert j <= i;
      }
    }
  }

  /** The live workers at a time, as the history determines them. */
  ghost function Pool(h: seq<Event>, cutoff: int): iset<Info> {
    iset w: Info | Known(h, w.id) == Some(w) && Fresh(w, cutoff)
  }

  // ---------------------------------------------------------------- worker objects

  class Worker {
    const id: string
    const models: seq<string>
    const gpu: bool
    const maxPrecision: string
    const endpoint: string
    var latency: int
    var inFlight: int
    var beat: int

    constructor (info: Info, endpoint: string, now: int)
      ensures View() == info.(beat := now) && this.endpoint == endpoint
    {
      id, models, gpu, maxPrecision := info.id, info.models, info.gpu, info.maxPrecision;
      this.endpoint := endpoint;
      latency, inFlight, beat := info.latency, info.inFlight, now;
    }

    function View(): Info
      reads this
    {
      Info(id, models, gpu, maxPrecision, latency, inFlight, beat)
    }
  }

  // ---------------------------------------------------------------- sorting by ID

  predicate Ascending(ws: seq<Worker>) {
    forall i, j :: 0 <= i < j < |ws| ==> IdLess(ws[i].id, ws[j].id)
  }

  predicate DistinctIds(ws: seq<Worker>) {
    forall i, j :: 0 <= i < j < |ws| ==> ws[i].id != ws[j].id
  }

  function InsertById(ws: seq<Worker>, w: Worker): (r: seq<Worker>)
    ensures multiset(r) == multiset(ws) + multiset{w}
  {
    if ws == [] || IdLess(w.id, ws[0].id) then [w] + ws
    else
      assert ws == [ws[0]] + ws[1..];
      [ws[0]] + InsertById(ws[1..], w)
  }

  lemma {:induction false} InsertKeepsAscending(ws: seq<Worker>, w: Worker)
    requires Ascending(ws) && forall x :: x in ws ==> x.id != w.id
    ensures Ascending(InsertById(ws, w))
  {
    if ws == [] {
    } else if IdLess(w.id, ws[0].id) {
      forall j | 0 <= j < |ws| ensures IdLess(w.id, ws[j].id) {
        if j > 0 { IdLessTransitive(w.id, ws[0].id, ws[j].id); }
      }
    } else {
      assert ws[0] in ws;
      InsertKeepsAscending(ws[1..], w);
      IdLessTotal(w.id, ws[0].id);
      var r := InsertById(ws[1..], w);
      forall x | x in r ensures IdLess(ws[0].id, x.id) {
        assert x in multiset(r);
        if x != w {
          assert x in multiset(ws[1..]);
        }
      }
    }
  }

  method SortById(ws: seq<Worker>) returns (out: seq<Worker>)
    requires DistinctIds(ws)
    ensures Ascending(out) && multiset(out) == multiset(ws)
  {
    out := [];
    assert ws[..0] == [];
    for i := 0 to |ws|
      invariant Ascending(out) && multiset(out) == multiset(ws[..i])
    {
      forall x | x in out ensures x.id != ws[i].id {
        assert x in multiset(ws[..i]);
      }
      InsertKeepsAscending(out, ws[i]);
      assert ws[..i + 1] == ws[..i] + [ws[i]];
      out := InsertById(out, ws[i]);
    }
    assert ws[..|ws|] == ws;
  }

  // ---------------------------------------------------------------- selection

  ghost predicate Winner(ws: seq<Worker>, q: Query, k: nat)
    reads ws
  {
    && k < |ws| && Eligible(ws[k].View(), q)
    && forall j :: 0 <= j < |ws| && Eligible(ws[j].View(), q) ==>
         Score(ws[k].View(), q) <= Score(ws[j].View(), q)
         && (j < k ==> Score(ws[k].View(), q) < Score(ws[j].View(), q))
  }

  method SupportsModel(w: Worker, model: string) returns (found: bool)
    ensures found == (model in w.models)
  {
    for i := 0 to |w.models|
      invariant model !in w.models[..i]
    {
      if w.models[i] == model {
        return true;
      }
    }
    found := false;
  }

  /** `eligible` lists, in order, exactly the eligible workers of `ws`; `at` says where they were. */
  ghost predicate Filtered(ws: seq<Worker>, q: Query, eligible: seq<Worker>, at: seq<nat>, upTo: nat)
    requires upTo <= |ws|
    reads ws
  {
    && |at| == |eligible|
    && (forall k :: 0 <= k < |at| ==> at[k] < upTo && eligible[k] == ws[at[k]] && Eligible(ws[at[k]].View(), q))
    && (forall k, l :: 0 <= k < l < |at| ==> at[k] < at[l])
    && (forall j :: 0 <= j < upTo && Eligible(ws[j].View(), q) ==> j in at)
  }

  method Filter(ws: seq<Worker>, q: Query) returns (eligible: seq<Worker>, ghost at: seq<nat>)
    ensures Filtered(ws, q, eligible, at, |ws|)
    ensures forall w :: w in eligible <==> w in ws && Eligible(w.View(), q)
  {
    eligible, at := [], [];
    for i := 0 to |ws|
      invariant Filtered(ws, q, eligible, at, i)
    {
      var w := ws[i];
      var supported := SupportsModel(w, q.model);
      if !supported {
        continue;
      }
      if q.preferred != "" && PrecisionRank(w.maxPrecision) < PrecisionRank(q.preferred) {
        continue;
      }
      ghost var before := at;
      eligible, at := eligible + [w], at + [i];
      assert at[|before|] == i && forall j :: j in before ==> j in at;
    }
  }

  /** Keeps a strictly better score only, so the first of the cheapest stays. */
  method Cheapest(eligible: seq<Worker>, q: Query) returns (best: Worker, ghost k: nat)
    requires eligible != []
    ensures k < |eligible| && best == eligible[k]
    ensures forall j :: 0 <= j < |eligible| ==> Score(best.View(), q) <= Score(eligible[j].View(), q)
    ensures forall j :: 0 <= j < k ==> Score(best.View(), q) < Score(eligible[j].View(), q)
  {
    var bestScore := None;
    best, k := eligible[0], 0;
    for i := 0 to |eligible|
      invariant k < |eligible| && best == eligible[k]
      invariant i == 0 <==> bestScore.None?
      invariant i > 0 ==> k < i && bestScore.value == Score(best.View(), q)
      invariant forall j :: 0 <= j < i ==> bestScore.value <= Score(eligible[j].View(), q)
      invariant forall j :: 0 <= j < k ==> i > 0 && bestScore.value < Score(eligible[j].View(), q)
    {
      var w := eligible[i];
      var score := w.latency + w.inFlight * LOAD_WEIGHT;
      if q.priority == Critical && w.gpu {
        score := score - GPU_BONUS;
      }
      if bestScore.None? || score < bestScore.value {
        best, bestScore, k := w, Some(score), i;
      }
    }
  }

  /** Filters, then scans; no answer exactly if nobody is eligible. */
  method Select(ws: seq<Worker>, q: Query) returns (r: Option<Worker>)
    ensures r.None? <==> forall w :: w in ws ==> !Eligible(w.View(), q)
    ensures r.Some? ==> exists k: nat :: Winner(ws, q, k) && ws[k] == r.value
  {
    var eligible, at := Filter(ws, q);
    if eligible == [] {
      return None;
    }
    var best, k := Cheapest(eligible, q);
    assert Winner(ws, q, at[k]) by {
      forall j | 0 <= j < |ws| && Eligible(ws[j].View(), q)
        ensures Score(best.View(), q) <= Score(ws[j].View(), q)
        ensures j < at[k] ==> Score(best.View(), q) < Score(ws[j].View(), q)
      {
        var m :| 0 <= m < |at| && at[m] == j;
        assert eligible[m] == ws[j];
      }
    }
    r := Some(best);
  }

  /** On a slice in ID order the first cheapest worker beats every other eligible one. */
  lemma WinnerBeatsAll(ws: seq<Worker>, q: Query, k: nat)
    requires Ascending(ws) && Winner(ws, q, k)
    ensures forall j :: 0 <= j < |ws| && j != k && Eligible(ws[j].View(), q) ==> Beats(ws[k].View(), ws[j].View(), q)
  {
  }

  // ---------------------------------------------------------------- the registry

  class Registry {
    var workers: map<string, Worker>
    const staleAfter: int
    ghost var history: seq<Event>

    ghost predicate Valid()
      reads this, workers.Values
    {
      && (forall id :: id in workers <==> Known(history, id).Some?)
      && (forall id :: id in workers ==> workers[id].id == id && Known(history, id) == Some(workers[id].View()))
    }

    constructor (staleAfter: int)
      ensures Valid() && workers == map[] && history == [] && this.staleAfter == staleAfter
    {
      workers, this.staleAfter, history := map[], staleAfter, [];
    }

    /** Adds or replaces: the map points to a new object from now on. */
    method Register(info: Info, endpoint: string, now: int)
      requires Valid()
      modifies this
      ensures Valid() && history == old(history) + [Registered(info, now)]
      ensures info.id in workers && fresh(workers[info.id]) && workers[info.id].inFlight == info.inFlight
      ensures workers[info.id].View() == info.(beat := now) && workers[info.id].endpoint == endpoint
      ensures workers == old(workers)[info.id := workers[info.id]]
    {
      var w := new Worker(info, endpoint, now);
      forall id ensures Known(history + [Registered(info, now)], id)
                        == if id == info.id then Some(info.(beat := now)) else Known(history, id) {
        KnownAppend(history, Registered(info, now), id);
      }
      history := history + [Registered(info, now)];
      workers := workers[info.id := w];
    }

    /** An unknown ID has no effect on any worker. */
    method Heartbeat(id: string, latency: int, inFlight: int, now: int)
      requires Valid()
      modifies this`history, if id in workers then {workers[id]} else {}
      ensures Valid() && history == old(history) + [Beat(id, latency, inFlight, now)]
      ensures id in workers ==> workers[id].inFlight == inFlight
    {
      forall i ensures Known(history + [Beat(id, latency, inFlight, now)], i)
                       == if i == id && Known(history, i).Some?
                          then Some(Known(history, i).value.(latency := latency, inFlight := inFlight, beat := now))
                          else Known(history, i) {
        KnownAppend(history, Beat(id, latency, inFlight, now), i);
      }
      history := history + [Beat(id, latency, inFlight, now)];
      if id in workers {
        var w := workers[id];
        w.beat, w.latency, w.inFlight := now, latency, inFlight;
      }
    }

    /** The live workers, by ID; the map may be visited in any order. */
    method Snapshot(now: int) returns (out: seq<Worker>)
      requires Valid()
      ensures Ascending(out)
      ensures forall w :: w in out <==> w in workers.Values && w.View() in Pool(history, now - staleAfter)
    {
      var cutoff := now - staleAfter;
      out := [];
      var rest := workers.Keys;
      while rest != {}
        invariant rest <= workers.Keys && DistinctIds(out)
        invariant forall w :: w in out <==> w.id in workers.Keys - rest && w == workers[w.id] && w.beat > cutoff
      {
        var id :| id in rest;
        rest := rest - {id};
        if workers[id].beat > cutoff {
          out := out + [workers[id]];
        }
      }
      ghost var unsorted := out;
      out := SortById(out);
      forall w ensures w in out <==> w in workers.Values && w.View() in Pool(history, cutoff) {
        assert w in out <==> w in multiset(out);
        assert w in unsorted <==> w in multiset(unsorted);
        if w in workers.Values {
          var id :| id in workers && workers[id] == w;
        }
      }
    }

    method Count(now: int) returns (n: nat)
      requires Valid()
      ensures n == |set id | id in workers && workers[id].View() in Pool(history, now - staleAfter)|
    {
      var out := Snapshot(now);
      n := |out|;
      ghost var ids := set id | id in workers && workers[id].View() in Pool(history, now - staleAfter);
      forall id ensures id in ids <==> exists k :: 0 <= k < |out| && out[k].id == id {
        if id in ids {
          assert workers[id] in out;
        }
        if k :| 0 <= k < |out| && out[k].id == id {
          assert out[k] in out;
          var j :| j in workers && workers[j] == out[k];
        }
      }
      CountIsLive(out, ids);
    }
  }

  lemma {:induction false} CountIsLive(ws: seq<Worker>, ids: set<string>)
    requires Ascending(ws)
    requires forall id :: id in ids <==> exists k :: 0 <= k < |ws| && ws[k].id == id
    ensures |ids| == |ws|
  {
    if ws != [] {
      var n := |ws| - 1;
      forall id ensures id in ids - {ws[n].id} <==> exists k :: 0 <= k < n && ws[..n][k].id == id {
        if id in ids - {ws[n].id} {
          var k :| 0 <= k < |ws| && ws[k].id == id;
          assert ws[..n][k].id == id;
        }
        if k :| 0 <= k < n && ws[..n][k].id == id {
          assert ws[k].id == id && IdLess(ws[k].id, ws[n].id);
          IdLessIrreflexive(id);
        }
      }
      CountIsLive(ws[..n], ids - {ws[n].id});
      assert ws[n].id in ids;
    }
  }

  // ---------------------------------------------------------------- the router

  class Server {
    const registry: Registry
    var calls: map<nat, Worker>  // Predict calls under way, and the worker each was routed to

    /** No worker that anyone can still reach has a request counted against it. */
    ghost predicate Unloaded()
      reads this, registry, registry.workers.Values, calls.Values
    {
      && (forall id :: id in registry.workers ==> registry.workers[id].inFlight == 0)
      && (forall c :: c in calls ==> calls[c].inFlight == 0)
    }

    ghost predicate Valid()
      reads this, registry, registry.workers.Values, calls.Values
    {
      registry.Valid() && Unloaded() && Plain(registry.history)
    }

    constructor (staleAfter: int)
      ensures Valid() && fresh(registry) && registry.history == [] && calls == map[]
      ensures registry.staleAfter == staleAfter
    {
      registry := new Registry(staleAfter);
      calls := map[];
    }

    /** The description a registration request leads to: no latency and no load yet. */
    static function Described(id: string, models: seq<string>, gpu: bool, maxPrecision: string): Info {
      Info(id, models, gpu, maxPrecision, 0, 0, 0)
    }

    method RegisterWorker(id: string, models: seq<string>, gpu: bool, maxPrecision: string, endpoint: string, now: int)
      returns (accepted: bool)
      requires Valid()
      modifies registry
      ensures Valid() && accepted == (id != "" && endpoint != "")
      ensures registry.history == old(registry.history)
              + if accepted then [Registered(Described(id, models, gpu, maxPrecision), now)] else []
      ensures accepted ==> id in registry.workers && fresh(registry.workers[id])
                           && var w := registry.workers[id];
                              && w.id == id && w.models == models && w.gpu == gpu && w.maxPrecision == maxPrecision
                              && w.endpoint == endpoint && w.latency == 0 && w.inFlight == 0 && w.beat == now
    {
      if id == "" || endpoint == "" {
        return false;
      }
      registry.Register(Described(id, models, gpu, maxPrecision), endpoint, now);
      accepted := true;
    }

    /**
     * The first half of Predict: snapshot and selection. The worker chosen is the
     * best of the live ones the history determines, and its score is its latency
     * less the GPU bonus; without an eligible live worker there is no call.
     */
    method BeginPredict(call: nat, q: Query, now: int) returns (r: Option<Worker>)
      requires Valid() && call !in calls
      modifies this
      ensures Valid() && calls == if r.Some? then old(calls)[call := r.value] else old(calls)
      ensures var pool := Pool(registry.history, now - registry.staleAfter);
              && (r.None? <==> forall w :: w in pool ==> !Eligible(w, q))
              && (r.Some? ==> Best(pool, q, r.value.View()))
      ensures r.Some? ==> q.model in r.value.models && Meets(r.value.maxPrecision, q.preferred)
      ensures r.Some? ==> exists i: nat :: Latest(registry.history, r.value.id, i)
                                           && r.value.latency == LatencyLeft(registry.history[i])
      ensures r.Some? ==> Score(r.value.View(), q) == r.value.latency - if q.priority == Critical && r.value.gpu then 25 else 0
    {
      var ws := registry.Snapshot(now);
      r := Select(ws, q);
      PoolIsSnapshot(registry, Pool(registry.history, now - registry.staleAfter), now, ws);
      if r.Some? {
        ghost var k: nat :| Winner(ws, q, k) && ws[k] == r.value;
        WinnerBeatsAll(ws, q, k);
        assert ws[k] in ws;
        EligibleMeaning(r.value.View(), q);
        ghost var i := PlainMeaning(registry.history, r.value.id);
        calls := calls[call := r.value];
      }
    }

    /**
     * The second half: a successful answer is recorded as a heartbeat under the
     * worker's ID, wherever that ID points by now; a failure leaves no trace.
     */
    method FinishPredict(call: nat, success: bool, latency: int, now: int)
      requires Valid() && call in calls
      modifies this, registry, registry.workers.Values
      ensures Valid() && calls == old(calls) - {call}
      ensures registry.history == old(registry.history)
              + if success then [Beat(old(calls)[call].id, latency, 0, now)] else []
    {
      var w := calls[call];
      if success {
        registry.Heartbeat(w.id, latency, w.inFlight, now);
      }
      calls := calls - {call};
    }
  }

  /** The values of a snapshot are exactly the pool of live workers. */
  lemma PoolIsSnapshot(registry: Registry, pool: iset<Info>, now: int, ws: seq<Worker>)
    requires registry.Valid() && pool == Pool(registry.history, now - registry.staleAfter)
    requires forall w :: w in ws <==> w in registry.workers.Values && w.View() in pool
    ensures forall w :: w in pool <==> exists k :: 0 <= k < |ws| && ws[k].View() == w
  {
  }
}
