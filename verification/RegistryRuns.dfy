/** What every serial run of REST requests keeps in the registry. */
module RegistryRuns {
  import opened Wrappers
  import opened ModelRegistry

  // ---------------------------------------------------------------- requests

  /**
   * The state-changing endpoints. `newest` stands for the database's choice among
   * equally new archived versions; `now` is the transaction's time.
   */
  datatype Request =
    | RegisterRequest(key: Key, artifact: Artifact, now: int)
    | DeployRequest(model: string, version: string, reason: string)
    | RollbackRequest(model: string, reason: string, newest: string)
    | TrafficRequest(model: string, version: string, pct: int)

  datatype Status = Ok | Created | BadRequest | Missing

  predicate Possible(db: Db, r: Request) {
    r.RollbackRequest? && HasArchived(db, r.model) ==> NewestArchived(db, r.model, r.newest)
  }

  function Effective(a: Artifact): Artifact {
    if a.precision == "" then a.(precision := "fp32") else a
  }

  /** What the handlers answer 400 to, before touching the registry. */
  predicate Rejected(r: Request) {
    match r
    case RegisterRequest(key, artifact, _) => key.model == "" || key.version == "" || artifact.path == ""
    case DeployRequest(_, version, _) => version == ""
    case RollbackRequest(_, _, _) => false
    case TrafficRequest(_, version, pct) => version == "" || pct < 0 || pct > 100
  }

  /** The guards of the handlers, then the registry's transaction. */
  function Serve(db: Db, r: Request): (Db, Status) {
    if Rejected(r) then (db, BadRequest) else
      match r
      case RegisterRequest(key, artifact, now) =>
        (db.(rows := Upserted(db.rows, key, Staging, 0, Effective(artifact), now)), Created)
      case DeployRequest(model, version, reason) =>
        if Key(model, version) !in db.rows then (db, Missing)
        else (Released(db, Key(model, version), Deployed, reason), Ok)
      case RollbackRequest(model, reason, newest) =>
        if !HasArchived(db, model) then (db, Missing)
        else (Released(db, Key(model, newest), RolledBack, reason), Ok)
      case TrafficRequest(model, version, pct) =>
        if Key(model, version) !in db.rows then (db, Missing)
        else (WithTraffic(db, Key(model, version), pct), Ok)
  }

  predicate Run(db: Db, rs: seq<Request>)
    decreases |rs|
  {
    rs == [] || (Possible(db, rs[0]) && Run(Serve(db, rs[0]).0, rs[1..]))
  }

  function End(db: Db, rs: seq<Request>): Db
    decreases |rs|
  {
    if rs == [] then db else End(Serve(db, rs[0]).0, rs[1..])
  }

  const EMPTY := Db(map[], [])

  /**
   * The handlers themselves, over the mutable registry. No status stands for a
   * server error: it needs a failing statement, changes nothing, and never
   * displaces a guard's rejection.
   */
  method Handle(registry: Registry, r: Request, fault: nat) returns (status: Option<Status>, answered: Request)
    modifies registry
    ensures status.None? ==> registry.db == old(registry.db) && fault > 0 && !Rejected(r)
    ensures r == answered || (r.RollbackRequest? && answered.RollbackRequest? && r == answered.(newest := r.newest))
    ensures status.Some? ==> Possible(old(registry.db), answered)
    ensures status.Some? ==> (registry.db, status.value) == Serve(old(registry.db), answered)
  {
    answered := r;
    var outcome: Outcome;
    match r
    case RegisterRequest(key, artifact, now) =>
      if key.model == "" || key.version == "" || artifact.path == "" {
        return Some(BadRequest), r;
      }
      outcome := registry.Register(key, None, 0, Effective(artifact), now, fault > 0);
      status := if outcome == Done then Some(Created) else None;
    case DeployRequest(model, version, reason) =>
      if version == "" {
        return Some(BadRequest), r;
      }
      outcome := registry.Deploy(model, version, reason, fault);
      status := StatusOf(outcome);
    case RollbackRequest(model, reason, _) =>
      var version;
      outcome, version := registry.Rollback(model, reason, fault);
      answered := r.(newest := version);
      status := StatusOf(outcome);
    case TrafficRequest(model, version, pct) =>
      if version == "" || pct < 0 || pct > 100 {
        return Some(BadRequest), r;
      }
      outcome := registry.SetTraffic(model, version, pct, fault > 0);
      status := StatusOf(outcome);
  }

  function StatusOf(outcome: Outcome): Option<Status> {
    match outcome
    case Done => Some(Ok)
    case NotFound => Some(Missing)
    case Failed => None
  }

  // ---------------------------------------------------------------- safety

  /** The version named by the model's latest deployment event. */
  function LastDeployment(events: seq<Deployment>, model: string): Option<string> {
    if events == [] then None
    else
      var last := events[|events| - 1];
      if last.model == model then Some(last.version) else LastDeployment(events[..|events| - 1], model)
  }

  predicate Serving(db: Db, k: Key) {
    k in db.rows && db.rows[k].stage == Production
  }

  ghost predicate SingleProduction(db: Db) {
    forall j: Key, k: Key :: j.model == k.model && Serving(db, j) && Serving(db, k) ==> j == k
  }

  ghost predicate Audited(db: Db) {
    forall k :: Serving(db, k) ==> LastDeployment(db.events, k.model) == Some(k.version)
  }

  ghost predicate TrafficInRange(db: Db) {
    forall k :: k in db.rows ==> 0 <= db.rows[k].traffic <= 100
  }

  ghost predicate Safe(db: Db) {
    SingleProduction(db) && Audited(db) && TrafficInRange(db)
  }

  lemma LastDeploymentAppend(events: seq<Deployment>, e: Deployment, model: string)
    ensures LastDeployment(events + [e], model)
            == if e.model == model then Some(e.version) else LastDeployment(events, model)
  {
  }

  lemma ReleasedSafe(db: Db, key: Key, action: Action, reason: string)
    requires Safe(db) && key in db.rows
    ensures Safe(Released(db, key, action, reason))
  {
  }

  lemma ServeSafe(db: Db, r: Request)
    requires Safe(db) && Possible(db, r)
    ensures Safe(Serve(db, r).0)
  {
    match r
    case DeployRequest(model, version, reason) =>
      if Key(model, version) in db.rows {
        ReleasedSafe(db, Key(model, version), Deployed, reason);
      }
    case RollbackRequest(model, reason, newest) =>
      if HasArchived(db, model) {
        ReleasedSafe(db, Key(model, newest), RolledBack, reason);
      }
    case _ =>
  }

  /**
   * Registry safety: after any run of requests a model has at most one production
   * version, its last deployment event names that version, and traffic is in 0..100.
   */
  lemma {:induction false} SafeRun(db: Db, rs: seq<Request>)
    requires Safe(db) && Run(db, rs)
    ensures Safe(End(db, rs))
    decreases |rs|
  {
    if rs != [] {
      ServeSafe(db, rs[0]);
      SafeRun(Serve(db, rs[0]).0, rs[1..]);
    }
  }

  lemma RegistrySafety(rs: seq<Request>)
    requires Run(EMPTY, rs)
    ensures Safe(End(EMPTY, rs))
  {
    SafeRun(EMPTY, rs);
  }

  function Target(r: Request): string {
    if r.RegisterRequest? then r.key.model else r.model
  }

  ghost predicate SameModel(db: Db, db': Db, model: string) {
    && (forall k: Key :: k.model == model && k in db.rows ==> k in db'.rows && db'.rows[k] == db.rows[k])
    && (forall k: Key :: k.model == model && k in db'.rows ==> k in db.rows)
    && LastDeployment(db'.events, model) == LastDeployment(db.events, model)
  }

  lemma OtherModelStep(db: Db, r: Request, model: string)
    requires Possible(db, r) && Target(r) != model
    ensures SameModel(db, Serve(db, r).0, model)
  {
    var db' := Serve(db, r).0;
    if db'.events != db.events {
      var e := db'.events[|db.events|];
      LastDeploymentAppend(db.events, e, model);
    }
  }

  /** A request never touches another model's rows or deployment history, in any run. */
  lemma {:induction false} OtherModelsUntouched(db: Db, rs: seq<Request>, model: string)
    requires Run(db, rs) && forall r :: r in rs ==> Target(r) != model
    ensures SameModel(db, End(db, rs), model)
    decreases |rs|
  {
    if rs != [] {
      assert rs[0] in rs;
      OtherModelStep(db, rs[0], model);
      OtherModelsUntouched(Serve(db, rs[0]).0, rs[1..], model);
    }
  }

  /** A row's registration time never changes and no row disappears, whatever is requested. */
  lemma {:induction false} RegistrationTimeFixed(db: Db, rs: seq<Request>, key: Key)
    requires Run(db, rs) && key in db.rows
    ensures key in End(db, rs).rows && End(db, rs).rows[key].createdAt == db.rows[key].createdAt
    decreases |rs|
  {
    if rs != [] {
      RegistrationTimeFixed(Serve(db, rs[0]).0, rs[1..], key);
    }
  }

  /** Only a registration of the same version changes what is stored about its artifact. */
  lemma {:induction false} ArtifactFixed(db: Db, rs: seq<Request>, key: Key)
    requires Run(db, rs) && key in db.rows
    requires forall r :: r in rs && r.RegisterRequest? ==> r.key != key
    ensures key in End(db, rs).rows && End(db, rs).rows[key].artifact == db.rows[key].artifact
    decreases |rs|
  {
    if rs != [] {
      assert rs[0] in rs;
      ArtifactFixed(Serve(db, rs[0]).0, rs[1..], key);
    }
  }

  /** An accepted registration is stored as sent, in staging and without traffic; no precision means fp32. */
  lemma RegisteredAsSent(db: Db, key: Key, artifact: Artifact, now: int)
    requires Serve(db, RegisterRequest(key, artifact, now)).1 == Created
    ensures var db' := Serve(db, RegisterRequest(key, artifact, now)).0;
            && key in db'.rows && db'.events == db.events
            && db'.rows[key].artifact.path == artifact.path && db'.rows[key].artifact.metrics == artifact.metrics
            && db'.rows[key].artifact.precision == (if artifact.precision == "" then "fp32" else artifact.precision)
            && db'.rows[key].stage == Staging && db'.rows[key].traffic == 0
            && (key !in db.rows ==> db'.rows[key].createdAt == now)
            && forall k :: k in db.rows && k != key ==> k in db'.rows && db'.rows[k] == db.rows[k]
  {
  }

  /** A registration is refused exactly if a name, version or path is missing. */
  lemma RegistrationAccepted(db: Db, key: Key, artifact: Artifact, now: int)
    ensures Serve(db, RegisterRequest(key, artifact, now)).1 == Created
            <==> |key.model| > 0 && |key.version| > 0 && |artifact.path| > 0
  {
  }

  /** Registering a serving version again leaves its model without a production version. */
  lemma ReRegisteringWithdraws(db: Db, key: Key, artifact: Artifact, now: int)
    requires SingleProduction(db) && Serving(db, key)
    requires key.model != "" && key.version != "" && artifact.path != ""
    ensures var db' := Serve(db, RegisterRequest(key, artifact, now)).0;
            forall k: Key :: k.model == key.model ==> !Serving(db', k)
  {
  }
}
