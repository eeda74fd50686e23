/** How much traffic a model's versions are given in total. */
module Traffic {
  import opened ModelRegistry
  import opened RegistryRuns

  ghost function Sum(rows: map<Key, Row>, keys: set<Key>): int
    requires keys <= rows.Keys
  {
    if keys == {} then 0 else
      var k :| k in keys;
      rows[k].traffic + Sum(rows, keys - {k})
  }

  lemma {:induction false} SumWithout(rows: map<Key, Row>, keys: set<Key>, k: Key)
    requires keys <= rows.Keys && k in keys
    ensures Sum(rows, keys) == rows[k].traffic + Sum(rows, keys - {k})
  {
    var j :| j in keys && Sum(rows, keys) == rows[j].traffic + Sum(rows, keys - {j});
    if j != k {
      SumWithout(rows, keys - {j}, k);
      SumWithout(rows, keys - {k}, j);
      assert keys - {j} - {k} == keys - {k} - {j};
    }
  }

  lemma {:induction false} SumSame(rows: map<Key, Row>, rows': map<Key, Row>, keys: set<Key>)
    requires keys <= rows.Keys && keys <= rows'.Keys
    requires forall k :: k in keys ==> rows'[k].traffic == rows[k].traffic
    ensures Sum(rows', keys) == Sum(rows, keys)
  {
    if keys != {} {
      var k :| k in keys;
      SumWithout(rows, keys, k);
      SumWithout(rows', keys, k);
      SumSame(rows, rows', keys - {k});
    }
  }

  /** Rows without traffic can be left out. */
  lemma {:induction false} SumWithoutZeros(rows: map<Key, Row>, keys: set<Key>, zeros: set<Key>)
    requires keys <= rows.Keys && zeros <= keys
    requires forall k :: k in zeros ==> rows[k].traffic == 0
    ensures Sum(rows, keys) == Sum(rows, keys - zeros)
  {
    if zeros == {} {
      assert keys - zeros == keys;
    } else {
      var k :| k in zeros;
      SumWithout(rows, keys, k);
      SumWithoutZeros(rows, keys - {k}, zeros - {k});
      assert keys - {k} - (zeros - {k}) == keys - zeros;
    }
  }

  function Versions(db: Db, model: string): set<Key> {
    set k | k in db.rows && k.model == model
  }

  function ServingVersions(db: Db, model: string): set<Key> {
    set k | k in db.rows && k.model == model && db.rows[k].stage == Production
  }

  ghost function TotalTraffic(db: Db, model: string): int {
    Sum(db.rows, Versions(db, model))
  }

  /**
   * After a Deploy or Rollback the model's traffic is 100 plus what every version
   * had before that is neither the new nor a previous production version.
   */
  lemma TrafficAfterRelease(db: Db, key: Key, action: Action, reason: string)
    requires key in db.rows
    ensures TotalTraffic(Released(db, key, action, reason), key.model)
            == 100 + Sum(db.rows, Versions(db, key.model) - {key} - ServingVersions(db, key.model))
  {
    var db' := Released(db, key, action, reason);
    var keys, previous := Versions(db, key.model), ServingVersions(db, key.model);
    assert Versions(db', key.model) == keys;
    SumWithout(db'.rows, keys, key);
    SumWithoutZeros(db'.rows, keys - {key}, previous - {key});
    assert keys - {key} - (previous - {key}) == keys - {key} - previous;
    SumSame(db.rows, db'.rows, keys - {key} - previous);
  }

  /** A traffic request changes the total by exactly what it changes on one version. */
  lemma TrafficAfterSplit(db: Db, key: Key, pct: int)
    requires key in db.rows
    ensures TotalTraffic(WithTraffic(db, key, pct), key.model)
            == TotalTraffic(db, key.model) - db.rows[key].traffic + pct
  {
    var db', keys := WithTraffic(db, key, pct), Versions(db, key.model);
    assert Versions(db', key.model) == keys;
    SumWithout(db.rows, keys, key);
    SumWithout(db'.rows, keys, key);
    SumSame(db.rows, db'.rows, keys - {key});
  }

  /** Production has all traffic and nothing else has any. */
  ghost predicate AllOrNothing(db: Db) {
    forall k :: k in db.rows ==> db.rows[k].traffic == if db.rows[k].stage == Production then 100 else 0
  }

  lemma {:induction false} AllOrNothingRun(db: Db, rs: seq<Request>)
    requires Safe(db) && AllOrNothing(db) && Run(db, rs) && forall r :: r in rs ==> !r.TrafficRequest?
    ensures Safe(End(db, rs)) && AllOrNothing(End(db, rs))
    decreases |rs|
  {
    if rs != [] {
      assert rs[0] in rs;
      ServeSafe(db, rs[0]);
      AllOrNothingRun(Serve(db, rs[0]).0, rs[1..]);
    }
  }

  /** Without traffic requests a model's total is 100 if it has a production version, else 0. */
  lemma TotalWithoutCanaries(rs: seq<Request>, model: string)
    requires Run(EMPTY, rs) && forall r :: r in rs ==> !r.TrafficRequest?
    ensures var db := End(EMPTY, rs);
            TotalTraffic(db, model) == if ServingVersions(db, model) == {} then 0 else 100
  {
    var db := End(EMPTY, rs);
    AllOrNothingRun(EMPTY, rs);
    var keys, serving := Versions(db, model), ServingVersions(db, model);
    if serving == {} {
      forall k | k in keys ensures db.rows[k].traffic == 0 {
        assert k !in serving;
      }
      SumWithoutZeros(db.rows, keys, keys);
      assert keys - keys == {};
    } else {
      var p :| p in serving;
      forall k | k in serving ensures k == p {
        assert Serving(db, k) && Serving(db, p);
      }
      SumWithout(db.rows, keys, p);
      SumWithoutZeros(db.rows, keys - {p}, keys - {p});
      assert keys - {p} - (keys - {p}) == {};
    }
  }
}
