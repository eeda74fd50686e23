/** The routing policy over worker descriptions: who is eligible, who scores best, and what that implies. */
module Selector {

  datatype Priority = Normal | High | Critical

  /** A worker as a value; `beat` is its last heartbeat time. */
  datatype Info = Info(id: string, models: seq<string>, gpu: bool, maxPrecision: string,
                       latency: int, inFlight: int, beat: int)

  datatype Query = Query(model: string, preferred: string, priority: Priority)

  const LOAD_WEIGHT := 15
  const GPU_BONUS := 25

  /** Unknown and empty precisions rank like the lowest one. */
  function PrecisionRank(p: string): int {
    if p == "fp32" then 3 else if p == "fp16" then 2 else if p == "int8" then 1 else 0
  }

  predicate Eligible(w: Info, q: Query) {
    q.model in w.models && !(q.preferred != "" && PrecisionRank(w.maxPrecision) < PrecisionRank(q.preferred))
  }

  /** Latency plus the load term, before any discount. */
  function Cost(w: Info): int {
    w.latency + w.inFlight * LOAD_WEIGHT
  }

  function Score(w: Info, q: Query): int {
    Cost(w) - if q.priority == Critical && w.gpu then GPU_BONUS else 0
  }

  // ---------------------------------------------------------------- the order of IDs

  predicate IdLess(a: string, b: string) {
    b != "" && (a == "" || a[0] < b[0] || (a[0] == b[0] && IdLess(a[1..], b[1..])))
  }

  lemma {:induction false} IdLessIrreflexive(a: string)
    ensures !IdLess(a, a)
  {
    if a != "" {
      IdLessIrreflexive(a[1..]);
    }
  }

  lemma {:induction false} IdLessTransitive(a: string, b: string, c: string)
    requires IdLess(a, b) && IdLess(b, c)
    ensures IdLess(a, c)
  {
    if a != "" && a[0] == b[0] == c[0] {
      IdLessTransitive(a[1..], b[1..], c[1..]);
    }
  }

  lemma {:induction false} IdLessTotal(a: string, b: string)
    ensures IdLess(a, b) || a == b || IdLess(b, a)
  {
    if a != "" && b != "" && a[0] == b[0] {
      IdLessTotal(a[1..], b[1..]);
      assert a == [a[0]] + a[1..] && b == [b[0]] + b[1..];
    }
  }

  // ---------------------------------------------------------------- the best worker

  /** Least score, then least ID. */
  predicate Beats(a: Info, b: Info, q: Query) {
    Score(a, q) < Score(b, q) || (Score(a, q) == Score(b, q) && IdLess(a.id, b.id))
  }

  /** `w` is the pool's best eligible worker. */
  ghost predicate Best(pool: iset<Info>, q: Query, w: Info) {
    && w in pool && Eligible(w, q)
    && forall x :: x in pool && Eligible(x, q) && x != w ==> Beats(w, x, q)
  }

  /** There is at most one best worker, so the answer does not depend on iteration order. */
  lemma BestIsUnique(pool: iset<Info>, q: Query, a: Info, b: Info)
    requires Best(pool, q, a) && Best(pool, q, b)
    ensures a == b
  {
    if a != b {
      assert Beats(a, b, q) && Beats(b, a, q);
      IdLessTransitive(a.id, b.id, a.id);
      IdLessIrreflexive(a.id);
    }
  }

  // ---------------------------------------------------------------- priorities and precisions

  /**
   * On one pool the critical choice costs at most 25 more than the normal one,
   * and more at all only if it has a GPU and the normal choice has none.
   */
  lemma GpuPreferenceBounded(pool: iset<Info>, q: Query, normal: Info, critical: Info)
    requires Best(pool, q.(priority := Normal), normal)
    requires Best(pool, q.(priority := Critical), critical)
    ensures Cost(normal) <= Cost(critical) <= Cost(normal) + 25
    ensures Cost(critical) > Cost(normal) ==> critical.gpu && !normal.gpu
  {
  }

  /** `high` asks for at least the precision of `low`. */
  predicate Demands(low: string, high: string) {
    low == "" || (high != "" && PrecisionRank(low) <= PrecisionRank(high))
  }

  /** Asking for more precision never makes a worker appear and never finds a better score. */
  lemma PrecisionMonotone(pool: iset<Info>, q: Query, high: string, w: Info)
    requires Demands(q.preferred, high) && Best(pool, q.(preferred := high), w)
    ensures Eligible(w, q)
    ensures forall v :: Best(pool, q, v) ==> Score(v, q) <= Score(w, q.(preferred := high))
  {
  }

  /** int4 < int8 < fp16 < fp32; no precision and unknown ones rank with int4. */
  lemma PrecisionOrder(p: string)
    ensures PrecisionRank("int4") < PrecisionRank("int8") < PrecisionRank("fp16") < PrecisionRank("fp32")
    ensures p !in {"int8", "fp16", "fp32"} ==> PrecisionRank(p) == PrecisionRank("int4")
  {
  }

  /** Which precisions of a worker meet a demand. */
  predicate Meets(maxPrecision: string, preferred: string) {
    && (preferred == "fp32" ==> maxPrecision == "fp32")
    && (preferred == "fp16" ==> maxPrecision == "fp32" || maxPrecision == "fp16")
    && (preferred == "int8" ==> maxPrecision == "fp32" || maxPrecision == "fp16" || maxPrecision == "int8")
  }

  /** A worker is eligible exactly if it lists the model and its precision meets the demand. */
  lemma EligibleMeaning(w: Info, q: Query)
    ensures Eligible(w, q) <==> (exists i :: 0 <= i < |w.models| && w.models[i] == q.model) && Meets(w.maxPrecision, q.preferred)
  {
  }

  /**
   * What being best weighs: latency in milliseconds, 15 for each request in
   * flight, less 25 for a GPU on critical priority; equal workers go by ID.
   */
  lemma BestWeighs(pool: iset<Info>, q: Query, w: Info, x: Info)
    requires Best(pool, q, w) && x in pool && Eligible(x, q) && x != w
    ensures var bonus := (v: Info) => if q.priority == Critical && v.gpu then 25 else 0;
            var a, b := w.latency + 15 * w.inFlight - bonus(w), x.latency + 15 * x.inFlight - bonus(x);
            a < b || (a == b && IdLess(w.id, x.id))
  {
    assert Beats(w, x, q);
  }

  /** IDs compare at their first difference, and a proper prefix comes first. */
  lemma {:induction false} IdLessMeaning(prefix: string, a: string, b: string)
    requires a == "" || b == "" || a[0] != b[0]
    ensures IdLess(prefix + a, prefix + b) <==> b != "" && (a == "" || a[0] < b[0])
  {
    if prefix == "" {
      assert prefix + a == a && prefix + b == b;
    } else {
      IdLessMeaning(prefix[1..], a, b);
      assert (prefix + a)[1..] == prefix[1..] + a && (prefix + b)[1..] == prefix[1..] + b;
    }
  }
}
