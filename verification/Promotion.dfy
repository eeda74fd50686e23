/** The retrain-and-promote pipeline as a client of the registry. */
module Promotion {
  import opened Wrappers
  import opened ModelRegistry
  import opened RegistryRuns

  /** One invocation; `metrics` is what the evaluation reported. */
  datatype Pipeline = Pipeline(version: string, metrics: map<string, real>, minImprovement: real, now: int)

  /** How it ended: exit 0, exit 1, or an exception. */
  datatype Exit = Promoted | Held | Raised

  /** What the production lookup yields: a number, None, or an exception on null metrics. */
  datatype Lookup = Accuracy(value: real) | Unknown | Broken

  function LookupIn(row: Option<Row>): Lookup {
    match row
    case None => Unknown
    case Some(r) =>
      if r.artifact.metrics.None? then Broken
      else if "accuracy" in r.artifact.metrics.value then Accuracy(r.artifact.metrics.value["accuracy"])
      else Unknown
  }

  function ArtifactPath(model: string, version: string): string {
    "models/" + model + "/" + version + "/model_fp32.pt"
  }

  function RegisterCandidate(model: string, p: Pipeline): Request {
    RegisterRequest(Key(model, p.version), Artifact("fp32", ArtifactPath(model, p.version), Some(p.metrics)), p.now)
  }

  function DeployCandidate(model: string, p: Pipeline): Request {
    DeployRequest(model, p.version, "")
  }

  ghost function ProductionRow(db: Db, model: string): Option<Row> {
    if exists k: Key :: k.model == model && Serving(db, k) then
      var k: Key :| k.model == model && Serving(db, k);
      Some(db.rows[k])
    else None
  }

  /** Whether the candidate is deployed, judged after it has been registered. */
  function Verdict(lookup: Lookup, p: Pipeline): Exit {
    if lookup.Broken? || "accuracy" !in p.metrics then Raised
    else if lookup.Unknown? || p.metrics["accuracy"] - lookup.value >= p.minImprovement then Promoted
    else Held
  }

  ghost function RunPipeline(db: Db, model: string, p: Pipeline): (Db, Exit) {
    var (registered, status) := Serve(db, RegisterCandidate(model, p));
    if status != Created then (db, Raised) else
      var exit := Verdict(LookupIn(ProductionRow(registered, model)), p);
      (if exit == Promoted then Serve(registered, DeployCandidate(model, p)).0 else registered, exit)
  }

  /** The script: register first, then look production up, then perhaps deploy. */
  method Execute(registry: Registry, model: string, p: Pipeline) returns (exit: Exit)
    requires SingleProduction(registry.db)
    modifies registry
    ensures (registry.db, exit) == RunPipeline(old(registry.db), model, p)
  {
    var status, _ := Handle(registry, RegisterCandidate(model, p), 0);
    if status != Some(Created) {
      return Raised;
    }
    var row := registry.Production(model);
    assert row == ProductionRow(registry.db, model) by {
      ProductionRowUnique(registry.db, model, row);
    }
    var lookup := LookupIn(row);
    if lookup.Broken? || "accuracy" !in p.metrics {
      return Raised;
    }
    if lookup.Unknown? || p.metrics["accuracy"] - lookup.value >= p.minImprovement {
      var _, _ := Handle(registry, DeployCandidate(model, p), 0);
      return Promoted;
    }
    exit := Held;
  }

  lemma ProductionRowUnique(db: Db, model: string, row: Option<Row>)
    requires SingleProduction(db)
    requires row.None? ==> forall k :: k in db.rows && k.model == model ==> db.rows[k].stage != Production
    requires row.Some? ==> exists k :: k in db.rows && k.model == model && db.rows[k].stage == Production && db.rows[k] == row.value
    ensures ProductionRow(db, model) == row
  {
  }

  // ---------------------------------------------------------------- the gate

  /** The accuracy recorded for the serving version. */
  ghost predicate Serves(db: Db, model: string, version: string, accuracy: real) {
    && Serving(db, Key(model, version))
    && var metrics := db.rows[Key(model, version)].artifact.metrics;
       metrics.Some? && "accuracy" in metrics.value && metrics.value["accuracy"] == accuracy
  }

  /** A candidate under the serving version's own name is promoted without comparison. */
  lemma SameNameIsUnconditional(db: Db, model: string, p: Pipeline, accuracy: real)
    requires Safe(db) && Serves(db, model, p.version, accuracy) && "accuracy" in p.metrics
    requires model != "" && p.version != ""
    ensures var (db', exit) := RunPipeline(db, model, p);
            exit == Promoted && Serves(db', model, p.version, p.metrics["accuracy"])
  {
  }

  /** Under any other name the gate compares with the serving version's accuracy. */
  lemma OtherNameIsGated(db: Db, model: string, p: Pipeline, version: string, accuracy: real)
    requires Safe(db) && Serves(db, model, version, accuracy) && "accuracy" in p.metrics
    requires model != "" && p.version != "" && p.version != version
    ensures var (db', exit) := RunPipeline(db, model, p);
            if p.metrics["accuracy"] - accuracy >= p.minImprovement
            then exit == Promoted && Serves(db', model, p.version, p.metrics["accuracy"])
            else exit == Held && Serves(db', model, version, accuracy) && InStage(db', model, p.version, Staging)
  {
  }

  /** Without a number to compare with, a measured candidate is promoted; on null metrics the script raises. */
  lemma NothingToCompare(db: Db, model: string, p: Pipeline)
    requires Safe(db) && "accuracy" in p.metrics && model != "" && p.version != ""
    ensures var (db', exit) := RunPipeline(db, model, p);
            && ((forall v :: !Serving(db, Key(model, v))) ==>
                  exit == Promoted && Serves(db', model, p.version, p.metrics["accuracy"]))
            && (forall v :: Serving(db, Key(model, v)) && v != p.version ==>
                  var metrics := db.rows[Key(model, v)].artifact.metrics;
                  && (metrics.None? ==> exit == Raised && Serving(db', Key(model, v)))
                  && (metrics.Some? && "accuracy" !in metrics.value ==>
                        exit == Promoted && Serves(db', model, p.version, p.metrics["accuracy"])))
  {
  }

  /** Whatever the verdict, the candidate is on record under its path, as fp32, with the reported metrics. */
  lemma CandidateOnRecord(db: Db, model: string, p: Pipeline)
    requires model != "" && p.version != ""
    ensures var (db', _) := RunPipeline(db, model, p);
            && Key(model, p.version) in db'.rows
            && db'.rows[Key(model, p.version)].artifact
               == Artifact("fp32", "models/" + model + "/" + p.version + "/model_fp32.pt", Some(p.metrics))
  {
  }

  /** Without a reported accuracy the script raises, but the candidate stays registered. */
  lemma UnmeasuredCandidate(db: Db, model: string, p: Pipeline, version: string, accuracy: real)
    requires Safe(db) && Serves(db, model, version, accuracy) && "accuracy" !in p.metrics
    requires model != "" && p.version != ""
    ensures var (db', exit) := RunPipeline(db, model, p);
            && exit == Raised
            && (if p.version == version then forall v, a :: !Serves(db', model, v, a) else Serves(db', model, version, accuracy))
  {
    if p.version == version {
      ReRegisteringWithdraws(db, Key(model, version), RegisterCandidate(model, p).artifact, p.now);
    }
  }

  lemma RunPipelineSafe(db: Db, model: string, p: Pipeline)
    requires Safe(db)
    ensures Safe(RunPipeline(db, model, p).0)
  {
    ServeSafe(db, RegisterCandidate(model, p));
    ServeSafe(Serve(db, RegisterCandidate(model, p)).0, DeployCandidate(model, p));
  }

  /** What a caller can check beforehand: the registration is refused, or the candidate cannot replace a better version. */
  predicate KeepsAccuracy(model: string, p: Pipeline, version: string, accuracy: real) {
    || model == "" || p.version == ""
    || ("accuracy" in p.metrics && p.metrics["accuracy"] >= accuracy)
    || (p.version != version && ("accuracy" in p.metrics ==> p.metrics["accuracy"] - accuracy < p.minImprovement))
  }

  /** For every threshold, negative ones included, a run keeps production accuracy exactly under that condition. */
  lemma GateHoldsExactly(db: Db, model: string, p: Pipeline, version: string, accuracy: real)
    requires Safe(db) && Serves(db, model, version, accuracy)
    ensures (exists v, a :: Serves(RunPipeline(db, model, p).0, model, v, a) && a >= accuracy)
            <==> KeepsAccuracy(model, p, version, accuracy)
  {
    var db' := RunPipeline(db, model, p).0;
    if model == "" || p.version == "" {
      assert Serves(db', model, version, accuracy);
    } else if "accuracy" !in p.metrics {
      UnmeasuredCandidate(db, model, p, version, accuracy);
    } else {
      RunPipelineSafe(db, model, p);
      var now := if p.version == version || p.metrics["accuracy"] - accuracy >= p.minImprovement then p.version else version;
      if p.version == version {
        SameNameIsUnconditional(db, model, p, accuracy);
      } else {
        OtherNameIsGated(db, model, p, version, accuracy);
      }
      forall v, a | Serves(db', model, v, a) ensures v == now {
        assert Serving(db', Key(model, v)) && Serving(db', Key(model, now));
      }
    }
  }

  // ---------------------------------------------------------------- many runs

  ghost function RunAll(db: Db, model: string, ps: seq<Pipeline>): Db
    decreases |ps|
  {
    if ps == [] then db else RunAll(RunPipeline(db, model, ps[0]).0, model, ps[1..])
  }

  predicate Recorded(p: Pipeline) {
    "accuracy" in p.metrics && p.minImprovement >= 0.0
  }

  /** Every run records an accuracy, has no negative threshold, and uses a name that is not serving at that time. */
  ghost predicate NewNames(db: Db, model: string, ps: seq<Pipeline>)
    decreases |ps|
  {
    ps == [] || (Recorded(ps[0]) && ps[0].version != "" && !Serving(db, Key(model, ps[0].version))
                 && NewNames(RunPipeline(db, model, ps[0]).0, model, ps[1..]))
  }

  /** The thresholds of the promotions that happened, added up. */
  ghost function Gain(db: Db, model: string, ps: seq<Pipeline>): real
    decreases |ps|
  {
    if ps == [] then 0.0 else
      (if RunPipeline(db, model, ps[0]).1 == Promoted then ps[0].minImprovement else 0.0)
      + Gain(RunPipeline(db, model, ps[0]).0, model, ps[1..])
  }

  /** Over any series of runs production accuracy rises by at least the gated thresholds. */
  lemma {:induction false} AccuracyRises(db: Db, model: string, ps: seq<Pipeline>, version: string, accuracy: real)
    returns (version': string, accuracy': real)
    requires Safe(db) && Serves(db, model, version, accuracy) && model != ""
    requires NewNames(db, model, ps)
    ensures Serves(RunAll(db, model, ps), model, version', accuracy')
    ensures accuracy' >= accuracy + Gain(db, model, ps) && Gain(db, model, ps) >= 0.0
    decreases |ps|
  {
    if ps == [] {
      version', accuracy' := version, accuracy;
    } else {
      var p := ps[0];
      OtherNameIsGated(db, model, p, version, accuracy);
      RunPipelineSafe(db, model, p);
      var (db', exit) := RunPipeline(db, model, p);
      if exit == Promoted {
        version', accuracy' := AccuracyRises(db', model, ps[1..], p.version, p.metrics["accuracy"]);
      } else {
        version', accuracy' := AccuracyRises(db', model, ps[1..], version, accuracy);
      }
    }
  }

  ghost function PromotionCount(db: Db, model: string, ps: seq<Pipeline>): nat
    decreases |ps|
  {
    if ps == [] then 0 else
      (if RunPipeline(db, model, ps[0]).1 == Promoted then 1 else 0)
      + PromotionCount(RunPipeline(db, model, ps[0]).0, model, ps[1..])
  }

  /** x + x + ... + x, n times. */
  function Multiple(n: nat, x: real): real {
    if n == 0 then 0.0 else x + Multiple(n - 1, x)
  }

  lemma {:induction false} UniformGain(db: Db, model: string, ps: seq<Pipeline>, threshold: real)
    requires forall p :: p in ps ==> p.minImprovement == threshold
    ensures Gain(db, model, ps) == Multiple(PromotionCount(db, model, ps), threshold)
    decreases |ps|
  {
    if ps != [] {
      assert ps[0] in ps;
      var (db', exit) := RunPipeline(db, model, ps[0]);
      UniformGain(db', model, ps[1..], threshold);
      assert Gain(db, model, ps) == (if exit == Promoted then threshold else 0.0) + Gain(db', model, ps[1..]);
    }
  }

  /** k promotions at one threshold raise production accuracy by at least k times that threshold. */
  lemma PromotionGate(db: Db, model: string, ps: seq<Pipeline>, version: string, accuracy: real, threshold: real)
    requires Safe(db) && Serves(db, model, version, accuracy) && model != ""
    requires NewNames(db, model, ps) && forall p :: p in ps ==> p.minImprovement == threshold
    ensures exists v, a :: Serves(RunAll(db, model, ps), model, v, a)
                           && a >= accuracy && a >= accuracy + Multiple(PromotionCount(db, model, ps), threshold)
  {
    var v, a := AccuracyRises(db, model, ps, version, accuracy);
    UniformGain(db, model, ps, threshold);
  }
}
