/** What Rollback restores, once and repeatedly. It picks by registration time, not archival time. */
module RollbackLaws {
  import opened Wrappers
  import opened ModelRegistry
  import opened RegistryRuns

  /** The version is archived or in production. */
  predicate WasReleased(db: Db, model: string, v: string) {
    InStage(db, model, v, Archived) || InStage(db, model, v, Production)
  }

  function CreatedAt(db: Db, model: string, v: string): int {
    if Key(model, v) in db.rows then db.rows[Key(model, v)].createdAt else 0
  }

  /**
   * Deploy over p, then Rollback: p may come back exactly if no other archived
   * version was registered later, and surely comes back exactly if p was
   * registered later than every other archived version.
   */
  lemma DeployThenRollback(db: Db, model: string, v: string, p: string, reason: string)
    requires SingleProduction(db) && InStage(db, model, p, Production)
    requires v != p && Key(model, v) in db.rows
    ensures var db' := Released(db, Key(model, v), Deployed, reason);
            && (NewestArchived(db', model, p) <==>
                  forall w :: InStage(db, model, w, Archived) && w != v ==> CreatedAt(db, model, w) <= CreatedAt(db, model, p))
            && ((forall w :: NewestArchived(db', model, w) ==> w == p) <==>
                  forall w :: InStage(db, model, w, Archived) && w != v ==> CreatedAt(db, model, w) < CreatedAt(db, model, p))
  {
    var db' := Released(db, Key(model, v), Deployed, reason);
    forall w ensures InStage(db', model, w, Archived) <==> w == p || (InStage(db, model, w, Archived) && w != v) {
    }
    forall w ensures CreatedAt(db', model, w) == CreatedAt(db, model, w) {
    }
    NewestByVersion(db', model, p);
    assert Key(model, p) in db'.rows && Key(model, p).model == model;
    var newest := NewestArchivedExists(db', model);
    NewestByVersion(db', model, newest);
    if forall w :: NewestArchived(db', model, w) ==> w == p {
      forall w | InStage(db, model, w, Archived) && w != v ensures CreatedAt(db, model, w) < CreatedAt(db, model, p) {
        NewestByVersion(db', model, w);
        assert w != p;
      }
    } else {
      var w :| NewestArchived(db', model, w) && w != p;
      NewestByVersion(db', model, w);
    }
  }

  lemma NewestByVersion(db: Db, model: string, v: string)
    ensures NewestArchived(db, model, v) <==>
              InStage(db, model, v, Archived)
              && forall w :: InStage(db, model, w, Archived) ==> CreatedAt(db, model, w) <= CreatedAt(db, model, v)
  {
    if InStage(db, model, v, Archived) && forall w :: InStage(db, model, w, Archived) ==> CreatedAt(db, model, w) <= CreatedAt(db, model, v) {
      forall k | k in db.rows && k.model == model && db.rows[k].stage == Archived
        ensures db.rows[k].createdAt <= db.rows[Key(model, v)].createdAt
      {
        assert k == Key(model, k.version) && InStage(db, model, k.version, Archived);
      }
    }
  }

  // ---------------------------------------------------------------- repeated rollback

  /** `first` and `second` are the two most recently registered released versions. */
  ghost predicate TopTwo(db: Db, model: string, first: string, second: string) {
    && WasReleased(db, model, first) && WasReleased(db, model, second)
    && CreatedAt(db, model, second) < CreatedAt(db, model, first)
    && forall w :: WasReleased(db, model, w) && w != first && w != second ==> CreatedAt(db, model, w) < CreatedAt(db, model, second)
  }

  function RolledBackTo(db: Db, model: string, v: string, reason: string): Db {
    Released(db, Key(model, v), RolledBack, reason)
  }

  /** The versions restored by consecutive successful rollbacks. */
  predicate Rollbacks(db: Db, model: string, reason: string, vs: seq<string>)
    decreases |vs|
  {
    vs == [] || (NewestArchived(db, model, vs[0]) && Rollbacks(RolledBackTo(db, model, vs[0], reason), model, reason, vs[1..]))
  }

  function AfterRollbacks(db: Db, model: string, reason: string, vs: seq<string>): Db
    decreases |vs|
  {
    if vs == [] then db else AfterRollbacks(RolledBackTo(db, model, vs[0], reason), model, reason, vs[1..])
  }

  /** The only version the next rollback can restore: the newest, unless it is serving. */
  function NextRestored(db: Db, model: string, first: string, second: string): string {
    if InStage(db, model, first, Production) then second else first
  }

  lemma RollbackStep(db: Db, model: string, first: string, second: string, v: string, reason: string)
    requires SingleProduction(db) && TopTwo(db, model, first, second)
    ensures NewestArchived(db, model, v) <==> v == NextRestored(db, model, first, second)
    ensures HasArchived(db, model)
    ensures NewestArchived(db, model, v) ==>
              var db' := RolledBackTo(db, model, v, reason);
              && SingleProduction(db') && InStage(db', model, v, Production)
              && (forall w :: WasReleased(db', model, w) <==> WasReleased(db, model, w))
              && (forall w :: CreatedAt(db', model, w) == CreatedAt(db, model, w))
              && TopTwo(db', model, first, second)
              && NextRestored(db', model, first, second) == if v == first then second else first
  {
    var next := NextRestored(db, model, first, second);
    NewestByVersion(db, model, v);
    NewestByVersion(db, model, next);
    assert InStage(db, model, next, Archived) by {
      if InStage(db, model, first, Production) && InStage(db, model, second, Production) {
        assert Serving(db, Key(model, first)) && Serving(db, Key(model, second));
      }
    }
    assert Key(model, next) in db.rows && Key(model, next).model == model;
    forall w | InStage(db, model, w, Archived) ensures CreatedAt(db, model, w) <= CreatedAt(db, model, next) {
      assert WasReleased(db, model, w);
    }
    if NewestArchived(db, model, v) {
      assert v == next;
      var db' := RolledBackTo(db, model, v, reason);
      forall w ensures WasReleased(db', model, w) <==> WasReleased(db, model, w) {
      }
      forall w ensures CreatedAt(db', model, w) == CreatedAt(db, model, w) {
      }
      assert Serving(db', Key(model, v)) && (Serving(db', Key(model, first)) ==> v == first);
    }
  }

  predicate Alternates(vs: seq<string>, start: string, other: string) {
    forall i :: 0 <= i < |vs| ==> vs[i] == if i % 2 == 0 then start else other
  }

  lemma AlternatesPrepend(vs: seq<string>, start: string, other: string)
    requires vs != [] && vs[0] == start && Alternates(vs[1..], other, start)
    ensures Alternates(vs, start, other)
  {
  }

  ghost predicate SameReleased(db: Db, db': Db, model: string) {
    forall w :: WasReleased(db', model, w) <==> WasReleased(db, model, w)
  }

  /**
   * Repeated rollback: every rollback succeeds, the released set is kept, and the
   * restored versions alternate between the two newest released ones for ever.
   */
  lemma {:induction false} RepeatedRollback(db: Db, model: string, first: string, second: string, reason: string, vs: seq<string>)
    requires SingleProduction(db) && TopTwo(db, model, first, second)
    requires Rollbacks(db, model, reason, vs)
    ensures var start := NextRestored(db, model, first, second);
            Alternates(vs, start, if start == first then second else first)
    ensures var end := AfterRollbacks(db, model, reason, vs);
            && TopTwo(end, model, first, second) && HasArchived(end, model) && SameReleased(db, end, model)
            && (vs != [] ==> InStage(end, model, vs[|vs| - 1], Production))
    decreases |vs|
  {
    if vs == [] {
      RollbackStep(db, model, first, second, first, reason);
    } else {
      RollbackStep(db, model, first, second, vs[0], reason);
      var db' := RolledBackTo(db, model, vs[0], reason);
      RepeatedRollback(db', model, first, second, reason, vs[1..]);
      AlternatesPrepend(vs, vs[0], if vs[0] == first then second else first);
      assert SameReleased(db, db', model);
    }
  }

  /** Distinct registration times and two released versions are enough for a two newest. */
  lemma TopTwoExists(db: Db, model: string, a: string, b: string) returns (first: string, second: string)
    requires WasReleased(db, model, a) && WasReleased(db, model, b) && a != b
    requires forall v, w :: WasReleased(db, model, v) && WasReleased(db, model, w) && v != w
                            ==> CreatedAt(db, model, v) != CreatedAt(db, model, w)
    ensures TopTwo(db, model, first, second)
  {
    var keys := set k | k in db.rows && k.model == model && db.rows[k].stage != Staging;
    assert Key(model, a) in keys && Key(model, b) in keys;
    var top := NewestAmong(db, model, keys);
    assert Key(model, a) in keys - {top} || Key(model, b) in keys - {top};
    var next := NewestAmong(db, model, keys - {top});
    first, second := top.version, next.version;
    assert top == Key(model, first) && next == Key(model, second);
    forall w | WasReleased(db, model, w) && w != first && w != second
      ensures CreatedAt(db, model, w) < CreatedAt(db, model, second)
    {
      assert Key(model, w) in keys - {top};
    }
  }

  /** No number of consecutive rollbacks reaches a third-newest version. */
  lemma ThirdNeverRestored(db: Db, model: string, first: string, second: string, third: string, reason: string, vs: seq<string>)
    requires SingleProduction(db) && TopTwo(db, model, first, second)
    requires Rollbacks(db, model, reason, vs) && third != first && third != second
    ensures third !in vs
  {
    RepeatedRollback(db, model, first, second, reason, vs);
  }

  // ---------------------------------------------------------------- not the last one archived

  const PLAIN := Artifact("fp32", "p", None)

  function Registration(model: string, version: string, now: int): Request {
    RegisterRequest(Key(model, version), PLAIN, now)
  }

  /** Register u, v and w in this order, then deploy w and u. */
  function Setup(model: string, u: string, v: string, w: string): seq<Request> {
    [Registration(model, u, 1), Registration(model, v, 2), Registration(model, w, 3),
     DeployRequest(model, w, ""), DeployRequest(model, u, "")]
  }

  lemma {:induction false} EndAppend(db: Db, rs: seq<Request>, r: Request)
    ensures End(db, rs + [r]) == Serve(End(db, rs), r).0
    decreases |rs|
  {
    if rs == [] {
      assert [] + [r] == [r] && End(Serve(db, r).0, []) == Serve(db, r).0;
    } else {
      EndAppend(Serve(db, rs[0]).0, rs[1..], r);
      assert (rs + [r])[1..] == rs[1..] + [r];
    }
  }

  predicate Names(model: string, u: string, v: string, w: string) {
    model != "" && u != "" && v != "" && w != "" && u != v && v != w && u != w
  }

  function ThreeRows(model: string, u: string, v: string, w: string, su: Stage, sw: Stage): map<Key, Row> {
    map[Key(model, u) := Row(su, if su == Production then 100 else 0, PLAIN, 1), Key(model, v) := Row(Staging, 0, PLAIN, 2),
        Key(model, w) := Row(sw, if sw == Production then 100 else 0, PLAIN, 3)]
  }

  lemma SetupRegistered(model: string, u: string, v: string, w: string)
    requires Names(model, u, v, w)
    ensures End(EMPTY, Setup(model, u, v, w)[..3]).rows == ThreeRows(model, u, v, w, Staging, Staging)
  {
    var rs := Setup(model, u, v, w);
    EndAppend(EMPTY, [], rs[0]);
    EndAppend(EMPTY, rs[..1], rs[1]);
    EndAppend(EMPTY, rs[..2], rs[2]);
    assert rs[..1] == [] + [rs[0]] && rs[..2] == rs[..1] + [rs[1]] && rs[..3] == rs[..2] + [rs[2]];
  }

  lemma DeployLast(db: Db, model: string, u: string, v: string, w: string)
    requires Names(model, u, v, w) && db.rows == ThreeRows(model, u, v, w, Staging, Staging)
    ensures Serve(db, DeployRequest(model, w, "")).0.rows == ThreeRows(model, u, v, w, Staging, Production)
  {
  }

  lemma DeployFirst(db: Db, model: string, u: string, v: string, w: string)
    requires Names(model, u, v, w) && db.rows == ThreeRows(model, u, v, w, Staging, Production)
    ensures Serve(db, DeployRequest(model, u, "")).0.rows == ThreeRows(model, u, v, w, Production, Archived)
  {
  }

  lemma SetupRows(model: string, u: string, v: string, w: string)
    requires Names(model, u, v, w)
    ensures End(EMPTY, Setup(model, u, v, w)).rows == ThreeRows(model, u, v, w, Production, Archived)
  {
    var rs := Setup(model, u, v, w);
    SetupRegistered(model, u, v, w);
    DeployLast(End(EMPTY, rs[..3]), model, u, v, w);
    EndAppend(EMPTY, rs[..3], rs[3]);
    DeployFirst(End(EMPTY, rs[..3] + [rs[3]]), model, u, v, w);
    EndAppend(EMPTY, rs[..3] + [rs[3]], rs[4]);
    assert rs == rs[..3] + [rs[3]] + [rs[4]];
  }

  /**
   * After Setup, deploying v archives u, yet the rollback after it restores w:
   * "most recently archived" does not describe what Rollback picks.
   */
  lemma NotMostRecentlyArchived(model: string, u: string, v: string, w: string)
    requires Names(model, u, v, w)
    ensures var db := End(EMPTY, Setup(model, u, v, w));
            var db' := Serve(db, DeployRequest(model, v, "")).0;
            && InStage(db, model, u, Production) && InStage(db', model, u, Archived)
            && NewestArchived(db', model, w) && !NewestArchived(db', model, u)
  {
    SetupRows(model, u, v, w);
    var db := End(EMPTY, Setup(model, u, v, w));
    var db' := Serve(db, DeployRequest(model, v, "")).0;
    assert Key(model, v) in db.rows && Key(model, u) in db'.rows && Key(model, w) in db'.rows;
  }
}
