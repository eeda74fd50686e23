/** The model registry: its two tables, its transactions and the REST requests that reach them. */
module ModelRegistry {
  import opened Wrappers

  datatype Stage = Staging | Production | Archived

  datatype Key = Key(model: string, version: string)

  /** `metrics` is None for a JSON null. */
  type Metrics = Option<map<string, real>>

  datatype Artifact = Artifact(precision: string, path: string, metrics: Metrics)

  datatype Row = Row(stage: Stage, traffic: int, artifact: Artifact, createdAt: int)

  datatype Action = Deployed | RolledBack

  datatype Deployment = Deployment(model: string, version: string, action: Action, reason: string)

  datatype Db = Db(rows: map<Key, Row>, events: seq<Deployment>)

  datatype Outcome = Done | NotFound | Failed

  // ---------------------------------------------------------------- statements

  /** INSERT ... ON CONFLICT DO UPDATE: a conflicting row keeps its creation time. */
  function Upserted(rows: map<Key, Row>, key: Key, stage: Stage, traffic: int, artifact: Artifact, now: int): map<Key, Row> {
    rows[key := Row(stage, traffic, artifact, if key in rows then rows[key].createdAt else now)]
  }

  /** Archives every production row of the model. */
  function Demoted(rows: map<Key, Row>, model: string): map<Key, Row> {
    map k | k in rows ::
      if k.model == model && rows[k].stage == Production then rows[k].(stage := Archived, traffic := 0) else rows[k]
  }

  function Promoted(rows: map<Key, Row>, key: Key): map<Key, Row> {
    if key in rows then rows[key := rows[key].(stage := Production, traffic := 100)] else rows
  }

  /** What a committed Deploy or Rollback of `key` leaves. */
  function Released(db: Db, key: Key, action: Action, reason: string): Db {
    Db(Promoted(Demoted(db.rows, key.model), key), db.events + [Deployment(key.model, key.version, action, reason)])
  }

  predicate InStage(db: Db, model: string, version: string, stage: Stage) {
    Key(model, version) in db.rows && db.rows[Key(model, version)].stage == stage
  }

  predicate HasArchived(db: Db, model: string) {
    exists k :: k in db.rows && k.model == model && db.rows[k].stage == Archived
  }

  /** What ORDER BY created_at DESC LIMIT 1 may return; ties are the database's choice. */
  predicate NewestArchived(db: Db, model: string, version: string) {
    && InStage(db, model, version, Archived)
    && forall k :: k in db.rows && k.model == model && db.rows[k].stage == Archived
         ==> db.rows[k].createdAt <= db.rows[Key(model, version)].createdAt
  }

  lemma {:induction false} NewestAmong(db: Db, model: string, keys: set<Key>) returns (k: Key)
    requires keys != {} && keys <= db.rows.Keys
    ensures k in keys && forall j :: j in keys ==> db.rows[j].createdAt <= db.rows[k].createdAt
  {
    k :| k in keys;
    if keys != {k} {
      var best := NewestAmong(db, model, keys - {k});
      if db.rows[best].createdAt > db.rows[k].createdAt {
        k := best;
      }
    }
  }

  lemma NewestArchivedExists(db: Db, model: string) returns (version: string)
    requires HasArchived(db, model)
    ensures NewestArchived(db, model, version)
  {
    var keys := set k | k in db.rows && k.model == model && db.rows[k].stage == Archived;
    var j :| j in db.rows && j.model == model && db.rows[j].stage == Archived;
    assert j in keys;
    var k := NewestAmong(db, model, keys);
    version := k.version;
    assert k == Key(model, version);
  }

  /** A registration writes this row in full, except that a known row keeps its time, and nothing else. */
  ghost predicate Written(db: Db, db': Db, key: Key, stage: Stage, traffic: int, artifact: Artifact, now: int) {
    && db'.rows.Keys == db.rows.Keys + {key} && db'.events == db.events
    && db'.rows[key].stage == stage && db'.rows[key].traffic == traffic && db'.rows[key].artifact == artifact
    && db'.rows[key].createdAt == (if key in db.rows then db.rows[key].createdAt else now)
    && forall k :: k in db.rows && k != key ==> db'.rows[k] == db.rows[k]
  }

  /**
   * A release appends its event and moves stage and traffic only: all to the
   * version released, none to the model's other production rows, which are archived.
   */
  ghost predicate Moved(db: Db, db': Db, key: Key, action: Action, reason: string) {
    && db'.rows.Keys == db.rows.Keys
    && db'.events == db.events + [Deployment(key.model, key.version, action, reason)]
    && (forall k :: k in db.rows ==>
          db'.rows[k].artifact == db.rows[k].artifact && db'.rows[k].createdAt == db.rows[k].createdAt)
    && (key in db.rows ==> db'.rows[key].stage == Production && db'.rows[key].traffic == 100)
    && (forall k :: k in db.rows && k != key ==>
          if k.model == key.model && db.rows[k].stage == Production
          then db'.rows[k].stage == Archived && db'.rows[k].traffic == 0
          else db'.rows[k] == db.rows[k])
  }

  // ---------------------------------------------------------------- transactions

  class Registry {
    var db: Db

    constructor ()
      ensures db == Db(map[], [])
    {
      db := Db(map[], []);
    }

    /** An empty stage means staging. */
    method Register(key: Key, stage: Option<Stage>, traffic: int, artifact: Artifact, now: int, fault: bool) returns (r: Outcome)
      modifies this
      ensures r == if fault then Failed else Done
      ensures db == if fault then old(db)
                    else old(db).(rows := Upserted(old(db).rows, key, if stage.Some? then stage.value else Staging, traffic, artifact, now))
      ensures r == Done ==> Written(old(db), db, key, if stage.Some? then stage.value else Staging, traffic, artifact, now)
    {
      if fault {
        return Failed;
      }
      var effective := if stage.None? then Staging else stage.value;
      db := db.(rows := Upserted(db.rows, key, effective, traffic, artifact, now));
      r := Done;
    }

    /**
     * Statements run on the transaction's own copy; statement number `fault`
     * fails (none if 0). Anything but Done aborts, including a NotFound found
     * out after the demotion.
     */
    method Deploy(model: string, version: string, reason: string, fault: nat) returns (r: Outcome)
      modifies this
      ensures r == if fault == 1 || fault == 2 then Failed
                   else if Key(model, version) !in old(db).rows then NotFound
                   else if fault == 3 || fault == 4 then Failed else Done
      ensures db == if r == Done then Released(old(db), Key(model, version), Deployed, reason) else old(db)
      ensures r == Done ==> Moved(old(db), db, Key(model, version), Deployed, reason)
    {
      var tx := db;
      if fault == 1 { return Failed; }
      tx := tx.(rows := Demoted(tx.rows, model));
      if fault == 2 { return Failed; }
      var affected := Key(model, version) in tx.rows;
      tx := tx.(rows := Promoted(tx.rows, Key(model, version)));
      if !affected { return NotFound; }
      if fault == 3 { return Failed; }
      tx := tx.(events := tx.events + [Deployment(model, version, Deployed, reason)]);
      if fault == 4 { return Failed; }
      db := tx;
      r := Done;
    }

    method Rollback(model: string, reason: string, fault: nat) returns (r: Outcome, version: string)
      modifies this
      ensures r == if fault == 1 then Failed
                   else if !HasArchived(old(db), model) then NotFound
                   else if 2 <= fault <= 5 then Failed else Done
      ensures r == Done ==> NewestArchived(old(db), model, version)
      ensures db == if r == Done then Released(old(db), Key(model, version), RolledBack, reason) else old(db)
      ensures r == Done ==> Moved(old(db), db, Key(model, version), RolledBack, reason)
    {
      version := "";
      var tx := db;
      if fault == 1 { return Failed, ""; }
      if !HasArchived(tx, model) { return NotFound, ""; }
      ghost var newest := NewestArchivedExists(tx, model);
      assert Key(model, newest) in tx.rows;
      var previous :| previous in tx.rows && previous.model == model && NewestArchived(tx, model, previous.version);
      version := previous.version;
      if fault == 2 { return Failed, version; }
      tx := tx.(rows := Demoted(tx.rows, model));
      if fault == 3 { return Failed, version; }
      tx := tx.(rows := Promoted(tx.rows, Key(model, version)));
      if fault == 4 { return Failed, version; }
      tx := tx.(events := tx.events + [Deployment(model, version, RolledBack, reason)]);
      if fault == 5 { return Failed, version; }
      db := tx;
      r := Done;
    }

    method SetTraffic(model: string, version: string, pct: int, fault: bool) returns (r: Outcome)
      modifies this
      ensures r == if fault then Failed else if Key(model, version) in old(db).rows then Done else NotFound
      ensures db == if r == Done then WithTraffic(old(db), Key(model, version), pct) else old(db)
      ensures r == Done ==>
                && db.events == old(db).events && db.rows.Keys == old(db).rows.Keys
                && db.rows[Key(model, version)] == old(db).rows[Key(model, version)].(traffic := pct)
                && forall k :: k in db.rows && k != Key(model, version) ==> db.rows[k] == old(db).rows[k]
    {
      if fault { return Failed; }
      var key := Key(model, version);
      if key !in db.rows { return NotFound; }
      db := db.(rows := db.rows[key := db.rows[key].(traffic := pct)]);
      r := Done;
    }

    /** The row of some production version, if there is one. */
    method Production(model: string) returns (row: Option<Row>)
      ensures row.None? ==> forall k :: k in db.rows && k.model == model ==> db.rows[k].stage != Stage.Production
      ensures row.Some? ==> exists k :: k in db.rows && k.model == model && db.rows[k].stage == Stage.Production && db.rows[k] == row.value
    {
      if k :| k in db.rows && k.model == model && db.rows[k].stage == Stage.Production {
        row := Some(db.rows[k]);
      } else {
        row := None;
      }
    }
  }

  function WithTraffic(db: Db, key: Key, pct: int): Db
    requires key in db.rows
  {
    db.(rows := db.rows[key := db.rows[key].(traffic := pct)])
  }
}
